# Arcanada Assistant: a verified model

This project models the parts of the assistant that keep state, speak a protocol or do arithmetic
whose correctness spans several functions, and proves what they promise. `dafny verify
dfyconfig.toml` checks all of it.

## What is modelled

**The once-a-day message.** `Dispatcher.dfy` (with its invariant and results beside it) is the
protocol of the proactive dispatcher: any number of workers, every Redis command and every Telegram
request one atomic step, any interleaving, lost replies included. `Processor.dfy` adds the run date
read off the wall clock, `DispatchService.dfy` the call as the source runs it, tied to the protocol
as one of its runs, and the failure counter over any sequence of calls. Of the three provisos one
could expect (attempts shorter than the 36 hour claim, no failed command after an acknowledged send,
dispatches of a date within 36 hours) the first turns out not to be needed. The other two are,
everywhere: from any state of a run a command that fails after an acknowledged send lets the run go
on to another one, and an acknowledged slot is sent again exactly when its claim has expired. Dates
read off the clock satisfy the last one only if a job reaches Redis within twelve hours of reading
its date (less the spread of the zone's offsets); in a zone that never changes, that bound is exact.
The source sets no such bound on the time it takes to compose a message. A claim never blocks a day
without a message, unless the reply of a SET NX is lost or a release fails, and then it always does.

**Approvals.** `Approval.dfy` (invariant and results beside it) interleaves proposals, taps, the Lua
claim (envelope looked up before claim, as the script does), key expiry, script flushes, NOSCRIPT
retries and lost replies; `ApprovalService.dfy` is the same pipeline as its classes run it, from
proposal to routed action, and `Callback.dfy` is the button codec. The comment at the top of the
codec speaks of 47 bytes; the code writes 45.

**Reading Muneral.** `Paging.dfy` is `fetchAll` against a server that may answer anything at any
time; `Backlog.dfy` and `DailySummary.dfy` are the two reads built on it, `Titles.dfy` lifts a work
item's reference out of its title, and `LocalMidnight.dfy` is the two-guess solver for a day's
bounds under an arbitrary offset function. A read that passes every check `fetchAll` makes need not
be a snapshot of any moment. Against a list that grows, shrinks and moves under it, its pages agree
exactly when every version it asks has one length; then it is exactly the diagonal of those
versions, and of the rows present throughout only one that slides forward over a page edge can be
missed.

**The messages.** `MarkdownV2.dfy` reads a message the way Telegram does and relates escaping to the
plain-text fallback. `Messages.dfy` shows that both daily messages are well formed whatever the
readers answer and show exactly the intended text, bold headers and plain bodies; and that the
digest's plain-text fallback never is that text, because the fallback drops the underscores of
`in_progress` and `NOT_MEASURED`. `DailyDigest.dfy` composes reads, counts, ranking and message.

**The build fingerprint.** `FileTree.dfy` is the service's pruning walk and the gate's full walk
with its filter; `Fingerprint.dfy` the hashed stream; `ImageFiles.dfy` says which files of a tree
are named by it, in terms of the tree alone. The two implementations agree on a tree exactly when no
directory named like an ignored file (`.DS_Store`, `*.log`, `*.tsbuildinfo`) holds a file worth
hashing. `Watchdog.dfy` is the deploy-lag verdict over the same digests.

**Smaller machines.** `Limiter.dfy` (sliding window), `ScopeGuard.dfy` (an index keyed by a
concatenated string, right about a string exactly when it is no alias of a principal),
`TraceContext.dfy` (spans ended in any order), `MuneraClient.dfy` (retries and the verdict on the
key), `ProactiveConfig.dfy` (last-good reload).

`Common.dfy`, `Sorting.dfy` and `RedisStore.dfy` are shared: sequence functions, the library's
stable sort and ordering of text, and a Redis key space with expiry.

Assumptions: a Redis command is atomic; the hash is injective and writes no NUL; JSON text and value
determine each other; UUIDs are fresh; the clock does not go back.

## Model

| member | source | states |
|---|---|---|
| Dispatcher.KeysAreDistinct | apps/assistant/src/proactive/proactive-dispatcher.service.ts:135-141 | different (kind, date) pairs claim different keys, and no claim key is a counter key |
| Dispatcher.SecondSendIff | apps/assistant/src/proactive/proactive-dispatcher.service.ts:98-110 | a first send is followed by a plain one exactly when Telegram refused to parse it; an acknowledgement of either ends in the reset, anything else in the release |
| DispatcherResults.RunKeepsInv | apps/assistant/src/proactive/proactive-dispatcher.service.ts:72-155 | every run keeps, for every slot, that an acknowledgement is covered by a claim that outlives all later starts, and that at most one worker holds a slot's claim and it wrote the entry itself |
| DispatcherResults.AtMostOneAcknowledgedSend | apps/assistant/src/proactive/proactive-dispatcher.service.ts:72-110 | over every interleaving, with commands that fail or lose their replies anywhere, SET NX included, a slot gets at most one acknowledged send, if no Redis command fails after one and its dispatches start within 36 hours of the first |
| DispatcherResults.OnlyOwnClaimIsReleased | apps/assistant/src/proactive/proactive-dispatcher.service.ts:72-96 | a worker about to delete a claim deletes the entry its own SET NX wrote, for a slot nobody has been acknowledged for |
| DispatcherResults.AcknowledgedSlotIsSkipped | apps/assistant/src/proactive/proactive-dispatcher.service.ts:72-80 | after an acknowledged send every further start of the slot changes nothing, whether its reply arrives or not |
| DispatcherResults.FailedResetSendsTwice | apps/assistant/src/proactive/proactive-dispatcher.service.ts:82-95 | the first condition cannot be dropped anywhere: from every state of a run, a command failing after an acknowledged send goes on to a second one with both conditions kept from there |
| DispatcherResults.LateStartSendsTwiceIff | apps/assistant/src/proactive/proactive-dispatcher.service.ts:72-81 | in every state of a run an acknowledged slot is claimed and acknowledged again exactly when its claim has expired, and then the start breaks the second condition |
| DispatcherResults.AcknowledgedClaimsExpire | apps/assistant/src/proactive/proactive-dispatcher.service.ts:15 | every slot can come to that state by a run that keeps both conditions |
| DispatcherResults.NoDayIsBlocked | apps/assistant/src/proactive/proactive-dispatcher.service.ts:72-96 | if no SET NX loses its reply and no release fails, no slot is ever claimed without a message and without a worker on it |
| DispatcherResults.LostClaimBlocks | apps/assistant/src/proactive/proactive-dispatcher.service.ts:74-81 | from any state of a run, a SET NX that takes effect without its reply leaves a slot nobody was acknowledged for in that condition |
| DispatcherResults.FailedReleaseBlocks | apps/assistant/src/proactive/proactive-dispatcher.service.ts:90-95 | so does a release that fails while the claim lives |
| DispatcherResults.BlockedUntilExpiry | apps/assistant/src/proactive/proactive-dispatcher.service.ts:72-81 | and nothing ends it before the claim expires |
| Processor.OneDateIsClose | apps/assistant/src/proactive/proactive.processor.ts:41-58 | two dispatches whose jobs read the same local date off the clock are less than 36 hours apart, if none takes longer than twelve hours, less the spread of offsets, from reading it to Redis |
| Processor.ClockKeepsStartsClose | apps/assistant/src/proactive/proactive.processor.ts:41-58 | under that bound every run dated by the clock satisfies the dispatcher's second condition |
| Processor.DailyMessageAtMostOnce | apps/assistant/src/proactive/proactive.processor.ts:26-58 | under that bound, with jobs dated by the clock and no failed command after an acknowledgement, each kind is acknowledged at most once per local date, over every interleaving |
| Processor.HalfADayIsExact | apps/assistant/src/proactive/proactive.processor.ts:41-49 | in a zone that never changes, every such run acknowledges each slot at most once if and only if no job may take longer than twelve hours from reading its date to Redis |
| Processor.SlowJobSendsTwice | apps/assistant/src/proactive/proactive.processor.ts:41-49 | beyond it, a date read at midnight and at the last millisecond of its day is sent twice |
| DispatchService.ProactiveDispatcher.Settle | apps/assistant/src/proactive/proactive-dispatcher.service.ts:82-95 | what follows the sends, with any of its commands failing or losing its reply: sent exactly when the reset is answered, otherwise the catch block as far as it gets, and the key space of the protocol run either way |
| DispatchService.ProactiveDispatcher.Dispatch | apps/assistant/src/proactive/proactive-dispatcher.service.ts:72-155 | one call, whatever any of its commands and sends meets: skipped, sent or failed exactly when each is due, and the key space is the one the protocol run of these replies leaves; undisturbed failures leave no claim and one more failure counted |
| DispatchService.CounterStep | apps/assistant/src/proactive/proactive-dispatcher.service.ts:143-155 | a call touches the counter of its own kind only: a success removes it, a failure counts on while it lives or starts from one, and renews 24 hours |
| DispatchService.CounterCountsFailures | apps/assistant/src/proactive/proactive-dispatcher.service.ts:143-155 | after any calls of both kinds a kind has a counter exactly when it failed since its last success; it never overstates those failures and equals them exactly when they stayed under 24 hours apart |
| DispatchService.WholeRun | apps/assistant/src/proactive/proactive-dispatcher.service.ts:72-96 | the steps of claim, sends and what follows are together one run of the protocol |
| Callback.EncodedIsParsed | apps/assistant/src/approval/telegram-callback.parser.ts:43-81 | encoding a valid id always succeeds with 45 characters and parses back to id and decision |
| Callback.ParsedWasEncoded | apps/assistant/src/approval/telegram-callback.parser.ts:43-81 | whatever parses is exactly what encoding its parts would write |
| Callback.RefusedBecause | apps/assistant/src/approval/telegram-callback.parser.ts:43-70 | each of the four refusals exactly when it is the first that applies: longer than 64, another prefix, neither decision, no id |
| Callback.UuidLayout | apps/assistant/src/approval/telegram-callback.parser.ts:13 | the ids it accepts, position by position: the four dashes, the version, the variant, hexadecimal digits of either case elsewhere |
| Approval.KeysAreDistinct | apps/assistant/src/approval/redis-idempotency.service.ts:134-140 | envelope and claim keys of any ids are distinct strings, though one prefix extends the other |
| ApprovalResults.RunKeepsInv | apps/assistant/src/approval/redis-idempotency.service.ts:25-33 | every run keeps the pipeline's invariant: per id the key space agrees with what was proposed, won and expired; per tap, what it has read is the proposal; per routed action, who won it |
| ApprovalResults.RoutedActionsAreApproved | apps/assistant/src/telegram/handlers/approval-callback.handler.ts:68-124 | every routed action carries the proposed tool and payload, follows an approving tap that won the claim before the timeout, and is the only one of its id |
| ApprovalResults.RejectedNeverRuns | apps/assistant/src/telegram/handlers/approval-callback.handler.ts:88-94 | once a rejection has won, no continuation ever routes that id |
| ApprovalResults.ExpiredNeverRuns | apps/assistant/src/approval/redis-idempotency.service.ts:62-65 | once a proposal times out undecided, no continuation ever routes it |
| ApprovalResults.WinsAreFinal | apps/assistant/src/approval/redis-idempotency.service.ts:25-33 | who won an id, how and when, never changes |
| ApprovalResults.ExpiredIsFinal | apps/assistant/src/approval/redis-idempotency.service.ts:25-33 | an id that timed out undecided is never won |
| ApprovalResults.AlreadyIsUnreachable | apps/assistant/src/approval/redis-idempotency.service.ts:26-32 | envelope and claim of an id never coexist, so the script never answers "already" and a tap on a decided id is answered "expired" |
| ApprovalResults.NobodyIsToldAlready | apps/assistant/src/telegram/handlers/approval-callback.handler.ts:81-87 | in no run does the handler reach its "already decided" branch |
| ApprovalResults.TakenIff | apps/assistant/src/approval/redis-idempotency.service.ts:26-32 | in every reachable state the claim is taken exactly when the id was stored, is undecided and has time left |
| ApprovalResults.WinnerReads | apps/assistant/src/approval/approval.service.ts:88-102 | the read after a win finds the proposed envelope exactly while the claim record lives, a day from the win |
| ApprovalResults.WinnersAreRoutedIff | apps/assistant/src/telegram/handlers/approval-callback.handler.ts:88-124 | under any interleaving, a winner that reads its record ends by routing exactly when it approved, came within a day, and the proposal carried a payload |
| ApprovalResults.EvalAnswers | apps/assistant/src/approval/redis-idempotency.service.ts:25-33 | the three answers of the script, each exactly when the two keys stand so, and where each leads the tap |
| ApprovalResults.LateTapIsToldSo | apps/assistant/src/telegram/handlers/approval-callback.handler.ts:74-80 | in every reachable state a tap on an id that is decided, unknown or timed out ends in the answer "expired" and changes nothing else |
| ApprovalResults.RoutedIsTold | apps/assistant/src/telegram/handlers/approval-callback.handler.ts:88-124 | in every run a tap is told that its action ran exactly when that tap had it routed |
| ApprovalResults.ProposalStands | apps/assistant/src/approval/redis-idempotency.service.ts:62-65 | a stored proposal lives for its timeout in whole seconds, and at least one |
| ApprovalService.RedisIdempotencyService.Claim | apps/assistant/src/approval/redis-idempotency.service.ts:67-112 | the claim is evaluated exactly once whatever the script cache does, and fails, without effect, exactly if the cache lacks the script at the first try and is flushed again before the second |
| ApprovalService.ClaimIsARun | apps/assistant/src/approval/redis-idempotency.service.ts:67-112 | that call is a run of the protocol, from tap to answer, with the same effect, and what its tap is told next is the script's answer |
| ApprovalService.RedisIdempotencyService.ReadClaim | apps/assistant/src/approval/redis-idempotency.service.ts:114-123 | the live claim record, if there is one |
| ApprovalService.Proposer.Propose | apps/assistant/src/approval/approval.service.ts:52-77 | until the timeout the approve button deserves exactly the proposed action and after it nothing, the reject button never deserves one, and other ids' buttons deserve what they did before |
| ApprovalService.OthersAreUntouched | apps/assistant/src/approval/approval.service.ts:52-77 | storing one envelope changes nothing any other id's button deserves |
| ApprovalService.ApprovalCallbackHandler.Handle | apps/assistant/src/telegram/handlers/approval-callback.handler.ts:34-124 | a tap routes exactly the action it deserves, and after a routed tap no tap on that button deserves anything |
| ApprovalService.TakenLeavesClaim | apps/assistant/src/approval/redis-idempotency.service.ts:25-33 | a taken claim leaves no envelope and a claim record with decision, decider, time and that envelope |
| ApprovalService.ReachableHoldsEnvelopes | apps/assistant/src/approval/redis-idempotency.service.ts:62-65 | what the handler assumes of the key space holds in every reachable state |
| Paging.Fetch | apps/assistant/src/proactive/muneral-reader.service.ts:271-329 | rows exactly when the client answers with a count no smaller than the page and no larger than 9007199254740991; then they are the page, the count, and marked truncated exactly when the page is shorter |
| Titles.PageIsRead | apps/assistant/src/proactive/muneral-reader.service.ts:224-231 | what a single-page read makes of it: each row displayed, the same total, truncated exactly when it lists fewer rows than that |
| Paging.MapOfTracks | apps/assistant/src/proactive/muneral-reader.service.ts:245-246 | the map of the first page holds each id once and is as long as the page exactly when no id repeats |
| Paging.MergePage | apps/assistant/src/proactive/muneral-reader.service.ts:256-259 | merging a page keeps the rows the deduplication of all that came and the flag exact |
| Paging.FetchAll | apps/assistant/src/proactive/muneral-reader.service.ts:239-269 | refused exactly when an answer was refused; otherwise the first total, each id once; not truncated exactly when every page reported that total and the ids are distinct and that many |
| Paging.RequestBound | apps/assistant/src/proactive/muneral-reader.service.ts:239-269 | against any server at most 1 + ceil(total / 200) requests |
| Paging.StableServerIsReadWhole | apps/assistant/src/proactive/muneral-reader.service.ts:239-269 | against one fixed list the answers are complete and are the list, in order |
| Paging.FetchAllOfStableList | apps/assistant/src/proactive/muneral-reader.service.ts:239-269 | on such a server, for any length, every row in order and not truncated |
| Paging.ReadAgreesIff | apps/assistant/src/proactive/muneral-reader.service.ts:239-269 | against a list that changes in any way between requests, no page is refused or reports another total exactly when every version asked has one length the reader accepts |
| Paging.ReadIsTheDiagonal | apps/assistant/src/proactive/muneral-reader.service.ts:239-269 | then row i of the read is row i of the version its page was asked of, and the read is whole exactly when no id comes twice |
| Paging.WholeReadIsTheDiagonal | apps/assistant/src/proactive/muneral-reader.service.ts:239-269 | a whole read of such a list is that, and every version it asked has the reported length |
| Paging.RowIsReadIff | apps/assistant/src/proactive/muneral-reader.service.ts:239-269 | a row, present at every request or not, is read exactly when some request finds it on the page it asks for |
| Paging.MissedRowSlides | apps/assistant/src/proactive/muneral-reader.service.ts:239-269 | a row present at every request and missed slid toward the front over a page edge between two requests |
| Paging.RowThatNeverAdvancesIsRead | apps/assistant/src/proactive/muneral-reader.service.ts:239-269 | a row present at every request whose position never decreases is always read |
| Paging.CompleteReadCanMissARow | apps/assistant/src/proactive/muneral-reader.service.ts:233-269 | and a row that does slide can be lost from a read that is complete by every check, so a complete read need not be a snapshot |
| Backlog.ReadBacklogTopN | apps/assistant/src/proactive/muneral-reader.service.ts:171-209 | the first n of all wanted rows, priority by priority and within one in the order read, each with its reference and title, and the count of all matches; nothing for n up to 0; the refusal passed on |
| Backlog.SortingIsRanking | apps/assistant/src/proactive/muneral-reader.service.ts:191-197 | filter and stable sort give exactly the four priorities one after the other |
| Backlog.SortedIsBuckets | apps/assistant/src/proactive/muneral-reader.service.ts:191-197 | a list in rank order is the concatenation of its priorities |
| Backlog.TopIsBest | apps/assistant/src/proactive/muneral-reader.service.ts:191-197 | no row left out outranks a row that is in |
| Backlog.LabelsAre | apps/assistant/src/proactive/muneral-reader.service.ts:177-182 | P0 to P3 ask for critical, high, medium and low and nothing else, an item carries the label of its priority and `P?` for any other |
| Titles.DisplayedIsClean | apps/assistant/src/proactive/muneral-reader.service.ts:354-361 | a displayed title has no space around it; a lifted reference is one, stands at the front of the raw title, and leaves a single line |
| Titles.ReferenceLengthIff | apps/assistant/src/proactive/muneral-reader.service.ts:355 | the matcher finds exactly the text its pattern describes: a capital, capitals and digits, a dash, digits, and no word character after |
| Titles.ReferenceIsShownIff | apps/assistant/src/proactive/muneral-reader.service.ts:354-360 | an item shows a reference exactly when its title, less leading space, begins with one on a single line, and then that one |
| Titles.UnreferencedIsTrimmed | apps/assistant/src/proactive/muneral-reader.service.ts:356 | without one the title shows whole, less the white space around it |
| Titles.SpaceIsWhiteSpace | apps/assistant/src/proactive/muneral-reader.service.ts:354-361 | white space is what the language trims |
| Titles.SeparatorSkipped | apps/assistant/src/proactive/muneral-reader.service.ts:355 | a colon or any of three dashes after the reference is dropped, and nothing else is |
| Titles.ReferenceFound | apps/assistant/src/proactive/muneral-reader.service.ts:355 | a reference is recognised again wherever no word character follows it |
| Titles.Redisplayed | apps/assistant/src/proactive/muneral-reader.service.ts:354-361 | how a line `id: title` is read back |
| Titles.RepeatIsDropped | apps/assistant/src/proactive/muneral-reader.service.ts:358-360 | a reference said twice is lifted once, with or without a title after it; one that goes on with a word character is not a repeat |
| Titles.DisplayIsStableIff | apps/assistant/src/proactive/muneral-reader.service.ts:354-361 | the line a message shows of an item displays as that item exactly when the title does not begin with the reference a third time |
| DailySummary.ReadDailySummary | apps/assistant/src/proactive/muneral-reader.service.ts:120-155 | the map-building loop equals filtering and counting per project, in order of project id |
| DailySummary.TallyStep | apps/assistant/src/proactive/muneral-reader.service.ts:126-146 | one row moves the map from the counts of the rows before it to the counts with it |
| DailySummary.KeysAreProjects | apps/assistant/src/proactive/muneral-reader.service.ts:125-138 | the keys of the map are the projects of the rows, each once |
| DailySummary.CountIsFilter | apps/assistant/src/proactive/muneral-reader.service.ts:139-145 | each counter is the number of rows that pass its filter |
| DailySummary.CountersAre | apps/assistant/src/proactive/muneral-reader.service.ts:139-145 | each named counter is the number of the project's rows with that status, or created within the window |
| DailySummary.ProjectsIgnoreOrder | apps/assistant/src/proactive/muneral-reader.service.ts:120-155 | the same rows in any order give the same summary |
| DailySummary.StatusesPartition | apps/assistant/src/proactive/muneral-reader.service.ts:139-142 | a project's rows are those of the four counted statuses and those of any other |
| DailySummary.EveryRowInOneProject | apps/assistant/src/proactive/muneral-reader.service.ts:126-138 | every row lands in exactly one project |
| DailySummary.SummaryConservesRows | apps/assistant/src/proactive/muneral-reader.service.ts:120-155 | over all projects the four counters and the rows of other statuses add up to `received` |
| LocalMidnight.TwoGuesses | apps/assistant/src/proactive/muneral-reader.service.ts:412-421 | on whole-second offsets the truncations of the source do not matter |
| LocalMidnight.MidnightIsFound | apps/assistant/src/proactive/muneral-reader.service.ts:412-421 | with at most one offset change near the date, the start is a local midnight exactly when the date has one |
| LocalMidnight.WindowIsRightIff | apps/assistant/src/proactive/muneral-reader.service.ts:423-435 | with one change of offset near, a window holds exactly the instants of its date exactly when the change neither repeats nor skips either of its midnights, up to the stated edge |
| LocalMidnight.WindowIsTheLocalDay | apps/assistant/src/proactive/muneral-reader.service.ts:423-435 | in particular between two unambiguous midnights; and windows of consecutive dates share their edge |
| LocalMidnight.StartIsRightIff | apps/assistant/src/proactive/muneral-reader.service.ts:412-421 | the start separates earlier dates from later ones exactly when the change does not repeat or skip that midnight, up to the stated edge |
| LocalMidnight.StartIsMidnightIff | apps/assistant/src/proactive/muneral-reader.service.ts:412-421 | in any zone, however often it changes: the start is a midnight exactly when the second guess's offset is in force at the instant it points to |
| LocalMidnight.SecondChangeHidesMidnight | apps/assistant/src/proactive/muneral-reader.service.ts:412-421 | with two changes near the date an existing midnight can be missed |
| LocalMidnight.DoubleMidnightLosesInstants | apps/assistant/src/proactive/muneral-reader.service.ts:412-435 | when midnight strikes twice the window can leave out instants of its date |
| MarkdownV2.EscapedShowsItself | apps/assistant/src/proactive/markdown-v2.ts:8-12 | escaped text is read back as itself in the surrounding style and leaves the style alone |
| MarkdownV2.EscapedReads | apps/assistant/src/proactive/markdown-v2.ts:8-12 | any text, escaped, is a well-formed message that shows that text |
| MarkdownV2.BoldReads | apps/assistant/src/proactive/markdown-v2.ts:14-16 | any text, made bold, is well formed, shows that text all bold and closes the span |
| MarkdownV2.ReadsAppend | apps/assistant/src/proactive/markdown-v2.ts:8-16 | two well-formed messages joined show the one and then the other |
| MarkdownV2.UnescapedShowsItselfIff | apps/assistant/src/proactive/markdown-v2.ts:8 | the character class is exact: unescaped text shows itself precisely when it holds none of the class |
| MarkdownV2.FallbackOf | apps/assistant/src/proactive/proactive-dispatcher.service.ts:117-119 | of any well-formed text the fallback is what shows, less `*`, `_` and backtick |
| MarkdownV2.FallbackIsExactIff | apps/assistant/src/proactive/proactive-dispatcher.service.ts:117-119 | the fallback is the visible text itself exactly when that holds no such character |
| MarkdownV2.EscapeIsUndoneIff | apps/assistant/src/proactive/proactive-dispatcher.service.ts:117-119 | the fallback undoes escaping exactly on texts without such a character |
| Messages.RenderDailySummary | apps/assistant/src/proactive/digest.aggregator.ts:102-132 | shows the bold title and, plain, either the refusal or meaning, one line per project, completeness and mailbox note |
| Messages.RowSaysItsCounters | apps/assistant/src/proactive/digest.aggregator.ts:112-115 | each of a project's five counters stands behind its own name |
| Messages.CompletenessSaysItsNumbers | apps/assistant/src/proactive/digest.aggregator.ts:117-121 | a partial read says what came and of how much, a whole one how much there is |
| Messages.RenderCompleted | apps/assistant/src/proactive/digest.aggregator.ts:71-77 | shows the bold header and, plain, the refusal, the word for none, or one dashed line per item and the marker of a partial read |
| Messages.RenderArchived | apps/assistant/src/proactive/digest.aggregator.ts:79-85 | the same of archived items |
| Messages.RenderDigestBacklog | apps/assistant/src/proactive/digest.aggregator.ts:87-100 | shows the bold header, the counts and the dashed entries |
| Messages.DigestCountSaysItsNumbers | apps/assistant/src/proactive/digest.aggregator.ts:90-93 | what is shown, matched and read stand behind their names; an unread total is `NOT_MEASURED` on a partial read and the matches on a whole one |
| Messages.RenderSnapshot | apps/assistant/src/proactive/briefing.aggregator.ts:75-81 | shows the bold header and the counts, or that there is no snapshot |
| Messages.SnapshotRowSaysItsNumbers | apps/assistant/src/proactive/briefing.aggregator.ts:76-80 | agents, events and approvals each with their name |
| Messages.RenderActiveTasks | apps/assistant/src/proactive/briefing.aggregator.ts:83-92 | shows the total and in parentheses at most ten entries and how many more there are |
| Messages.RenderBriefingBacklog | apps/assistant/src/proactive/briefing.aggregator.ts:94-104 | shows the counts and the entries |
| Messages.BriefingCountSaysItsNumbers | apps/assistant/src/proactive/briefing.aggregator.ts:96-99 | the same of the briefing's three numbers |
| Messages.DecimalReadsBack | apps/assistant/src/proactive/digest.aggregator.ts:91-93 | a number in a message reads back as the number |
| Messages.FormatTaskShows | apps/assistant/src/proactive/digest.aggregator.ts:135-137 | id and title show as they are, and an empty id like an absent one |
| Messages.DegradedShows | apps/assistant/src/proactive/briefing.aggregator.ts:116-118 | a refusal's reason shows as it is |
| Messages.PartialShows | apps/assistant/src/proactive/briefing.aggregator.ts:121-123 | the marker of a partial read shows exactly when the read was one |
| Messages.ComposeDigest | apps/assistant/src/proactive/digest.aggregator.ts:30-69 | for all readers' answers the digest is well formed, shows exactly the intended lines in their styles, and lists the sections it holds |
| Messages.ComposeBriefing | apps/assistant/src/proactive/briefing.aggregator.ts:36-64 | the same of the briefing |
| Messages.DigestFallbackDiffers | apps/assistant/src/proactive/proactive-dispatcher.service.ts:117-119 | no digest survives the plain-text fallback unchanged; it is the visible text less its markup characters |
| DailyDigest.DigestOfStableBoard | apps/assistant/src/proactive/digest.aggregator.ts:30-69 | from the board to the chat: while the paged lists stand still, of any length, the digest shows the counts of all rows of the local day and the best three of all urgent rows, and its fallback is that text less its markup characters |
| DailyDigest.TopIsUrgent | apps/assistant/src/proactive/muneral-reader.service.ts:171-209 | those best three are the first of the critical rows, then of the high ones, and the matches counted are all of both |
| FileTree.KeepIsSelected | scripts/ci/deployed-build-gate.py:88-105 | the full walk plus filter finds exactly the files no part of whose path is ignored |
| FileTree.WalkIsPruned | apps/assistant/src/health/build-fingerprint.ts:154-167 | the sorting, pruning walk finds exactly the files it reaches through directories it does not ignore |
| FileTree.PrunedWithinSelected | apps/assistant/src/health/build-fingerprint.ts:108-114 | the pruning walk never finds more, and as much exactly on agreeable trees |
| FileTree.WalksAgreeIff | apps/assistant/src/health/build-fingerprint.ts:154-167 | the two walks select the same files if and only if no directory named like an ignored file holds a file worth selecting |
| FileTree.PlainIsAgreeable | apps/assistant/src/health/build-fingerprint.ts:108-114 | a tree with no directory so named is agreeable |
| FileTree.WalksCanDiffer | scripts/ci/deployed-build-gate.py:88-105 | a source file under `audit.log/` is found by the gate and not by the service |
| FileTree.KeepIgnoresOrder | scripts/ci/deployed-build-gate.py:101-105 | the order of the listing does not matter to what is kept |
| Fingerprint.Collect | apps/assistant/src/health/build-fingerprint.ts:180-185 | the collecting loop gathers every declared input's files and problems, in order |
| Fingerprint.HashLines | apps/assistant/src/health/build-fingerprint.ts:197-211 | the four updates per file hash the stream path NUL digest NUL |
| Fingerprint.ComputeFingerprint | apps/assistant/src/health/build-fingerprint.ts:180-212 | the two loops with the sort between them yield the digest the results below are about, or null when any input has a problem |
| Fingerprint.NullIff | apps/assistant/src/health/build-fingerprint.ts:139-195 | the digest is null exactly when some declared input yields no file, whatever is wrong with it |
| Fingerprint.StreamDecodes | apps/assistant/src/health/build-fingerprint.ts:197-211 | the hashed stream is uniquely decodable |
| Fingerprint.StreamGrows | apps/assistant/src/health/build-fingerprint.ts:196-211 | a file adds its path, a NUL, the digest of its content and a NUL; the whole is named `sha256:` and hashed in sorted order |
| Fingerprint.DigestNamesLines | apps/assistant/src/health/build-fingerprint.ts:196-211 | two digests are equal exactly when the lines are the same, in whatever order they were found |
| Fingerprint.PathTextIsUnambiguous | apps/assistant/src/health/build-fingerprint.ts:161 | a path joined with slashes names its parts |
| Fingerprint.InputsAreDeclared | apps/assistant/src/health/build-fingerprint.ts:56-64 | no declared input lies inside another, and all are plain paths |
| Fingerprint.AllFilesAreSeparate | apps/assistant/src/health/build-fingerprint.ts:182-184 | no file is collected twice |
| Fingerprint.DigestNamesTheFileSet | apps/assistant/src/health/build-fingerprint.ts:180-212 | two digests, of either implementation, are equal exactly when the two trees hold the same paths with the same contents |
| Fingerprint.SameFilesIff | scripts/ci/deployed-build-gate.py:96-121 | the implementations collect the same files of a tree exactly when it is agreeable |
| Fingerprint.LanguagesAgreeIff | scripts/ci/deployed-build-gate.py:113-149 | the implementations answer alike on a tree exactly when it is agreeable or both answer null |
| ImageFiles.FilesAreCovered | apps/assistant/src/health/build-fingerprint.ts:139-167 | either implementation collects a path with a content exactly when the tree holds that file as a declared input, or below one where that implementation ignores neither it nor, for the service, a directory on the way |
| ImageFiles.DigestNamesCoveredFiles | apps/assistant/src/health/build-fingerprint.ts:180-212 | two digests, of either implementation, are equal exactly when the same files with the same contents are so covered in the two trees |
| Watchdog.Run | scripts/ci/deploy-lag-watchdog.py:92-143 | the walk dates the oldest undeployed commit and reaches the stated verdict in every branch |
| Watchdog.LagIff | scripts/ci/deploy-lag-watchdog.py:130-135 | the whole seconds of lag are within a limit exactly when the commit is less than a second beyond it |
| Watchdog.PassIff | scripts/ci/deploy-lag-watchdog.py:92-143 | with a clean checkout, PASS exactly when production runs the newest image-input commit, or one within the walk with every newer one at most the limit old |
| Watchdog.PassByMatch | scripts/ci/deploy-lag-watchdog.py:100-143 | for any checkout, PASS exactly when production runs it, or the newest match lies within the walk, is not the newest commit, and the commit above it is at most the limit old |
| Watchdog.PushFlipsIff | scripts/ci/deploy-lag-watchdog.py:109-143 | an undeployed push turns FAIL into PASS exactly when production ran the newest commit (so only the checkout differed), the walk reaches past the push, and the push is not yet too old |
| Watchdog.PushKeepsFailure | scripts/ci/deploy-lag-watchdog.py:109-143 | whatever the checkout, when production is behind the newest commit such a push never turns FAIL into PASS, even when the match leaves the walk |
| Watchdog.TrickleNeverPasses | scripts/ci/deploy-lag-watchdog.py:109-143 | nor does any sequence of them |
| Watchdog.CleanFailureIsBehind | scripts/ci/deploy-lag-watchdog.py:105-127 | with a clean checkout a failure means production is behind the newest commit |
| Watchdog.MatchInPrefix | scripts/ci/deploy-lag-watchdog.py:72-75 | limiting the walk finds the same match or none |
| Limiter.FatalInterceptor.ShouldEmit | apps/assistant/src/lifecycle/fatal.interceptor.ts:70-78 | refused exactly when the maximum was accepted in the last window; the queue is that slice of history |
| Limiter.QueueIsEnough | apps/assistant/src/lifecycle/fatal.interceptor.ts:72-74 | what the queue has dropped no later question needs |
| Limiter.AtMostMaxPerWindow | apps/assistant/src/lifecycle/fatal.interceptor.ts:70-78 | in every run any closed interval as long as the window holds at most the maximum of accepted emits |
| Limiter.BurstIsFilled | apps/assistant/src/lifecycle/fatal.interceptor.ts:70-78 | the bound is reached: a burst at one instant gets exactly the maximum |
| ScopeGuard.KeyDecodes | apps/assistant/src/aal/scope-guard.ts:22 | for principals of the schema's grammar the concatenated key determines principal and agent, whatever the agent is called |
| ScopeGuard.EnterKeepsIndexed | apps/assistant/src/aal/scope-guard.ts:20-32 | entering one agent entry adds exactly its intents and its name to both indexes |
| ScopeGuard.Guard.EnterScope | apps/assistant/src/aal/scope-guard.ts:21-32 | the inner loop enters every agent of one entry |
| ScopeGuard.Guard.Load | apps/assistant/src/aal/scope-guard.ts:17-37 | afterwards both indexes hold exactly the entries of this manifest and nothing of an earlier one |
| ScopeGuard.Guard.LoadAll | apps/assistant/src/aal/scope-guard.ts:17-60 | after any sequence of loads the guard answers from the last manifest: exactly its grants for every string that is no alias, principals of the grammar among them, and exactly its agents for every string |
| ScopeGuard.AgreesIff | apps/assistant/src/aal/scope-guard.ts:41-44 | for every string: the guard answers as the manifest does, whichever valid manifest is loaded, exactly when the string is not a principal followed by `:` alone or by `::` and anything |
| ScopeGuard.AliasIsAllowed | apps/assistant/src/aal/scope-guard.ts:41-44 | for every such string, a valid manifest under which it is allowed what nobody granted it |
| ScopeGuard.PrincipalsAreNoAliases | apps/assistant/src/aal/scope.schema.ts:18-26 | no principal of the grammar is an alias of another |
| ScopeGuard.ListsAgree | apps/assistant/src/aal/scope-guard.ts:54-56 | the agents listed for any string are exactly those of the manifest |
| ScopeGuard.SomeStringsAreAliases | apps/assistant/src/aal/scope-guard.ts:41-44 | there are aliases of both kinds |
| TraceContext.NoopTraceContext.StartSpan | apps/assistant/src/observability/trace-context.ts:90-107 | the span joins the trace of the live spans, or begins one if there are none, and goes on top |
| TraceContext.SimpleSpan.End | apps/assistant/src/observability/trace-context.ts:67-71 | in any order the stack loses this span and no other, stays the unended spans in start order with one trace id, and a second end changes nothing |
| TraceContext.SimpleSpan.Apply | apps/assistant/src/observability/trace-context.ts:58-66 | over any sequence of settings an ended span is frozen and a live one has the status set last |
| TraceContext.NoopTraceContext.OnEnd | apps/assistant/src/observability/trace-context.ts:95-98 | the splice removes exactly the first frame of the span |
| TraceContext.NoopTraceContext.CurrentSpan | apps/assistant/src/observability/trace-context.ts:108-110 | the latest started span that has not ended, and none exactly when all have |
| TraceContext.NoopTraceContext.OutboundHeader | apps/assistant/src/observability/trace-context.ts:111-115 | a header exactly when a span is live, and with ids of their proper length 55 characters that carry both |
| TraceContext.EndStep | apps/assistant/src/observability/trace-context.ts:95-98 | removing an ended span from the live ones in start order is removing it from the stack |
| MuneraClient.Client.DoFetch | apps/assistant/src/agents/munera/munera.client.ts:492-544 | what one fetch comes to for every answer, and that the state is still the last word of the log |
| MuneraClient.Client.ExecuteRequest | apps/assistant/src/agents/munera/munera.client.ts:476-490 | a call that is not retryable fetches once, another at most maxAttempts + 1 times; only answers worth another try are followed by a fetch; it slept base(3^(k-1) - 1)/2 after k fetches; the key's state moves only on the last answer |
| MuneraClient.Client.CallAll | apps/assistant/src/agents/munera/munera.client.ts:476-544 | over any calls made one after another, with a breaker that may fail any of them without a fetch, the state stays the last word |
| MuneraClient.OverlappingCalls | apps/assistant/src/agents/munera/munera.client.ts:476-544 | however the calls overlap, the state is the last word among all their responses, and every call keeps its bound and its retry discipline and comes to what its last response comes to |
| MuneraClient.RunKeepsInv | apps/assistant/src/agents/munera/munera.client.ts:476-544 | every run of overlapping calls keeps that |
| MuneraClient.LogGrows | apps/assistant/src/agents/munera/munera.client.ts:522-524 | a response moves the state exactly when it is a readable 401, 2xx or 403 |
| MuneraClient.StateIsDetermined | apps/assistant/src/agents/munera/munera.client.ts:221-223 | the log of responses alone determines the state |
| MuneraClient.SilentIff | apps/assistant/src/agents/munera/munera.client.ts:521-524 | a response leaves the state alone after whatever log exactly when it is not a 401, 2xx or 403 with a body that was read |
| MuneraClient.LastWordSays | apps/assistant/src/agents/munera/munera.client.ts:521-524 | a last word of 401 leaves the key rejected, of 2xx or 403 accepted |
| MuneraClient.OutcomeIs | apps/assistant/src/agents/munera/munera.client.ts:509-540 | which statuses are returned, refused and worth another try |
| MuneraClient.BreakerSeesNoClientFault | apps/assistant/src/agents/munera/munera.client.ts:572-577 | no error that reaches the breaker is a client fault, so its filter is idle; it counts redirects, unreadable answers and transient statuses |
| ProactiveConfig.Service.Notify | apps/assistant/src/proactive/proactive-config.service.ts:101-111 | every listener hears of the change once, with the configuration it replaces |
| ProactiveConfig.Service.Refresh | apps/assistant/src/proactive/proactive-config.service.ts:91-99 | a configuration that fails to load or equals the current one changes nothing; any other is announced |
| ProactiveConfig.Service.Poll | apps/assistant/src/proactive/proactive-config.service.ts:91-99 | from wherever the service stands, the snapshot is the last configuration that parsed, and whoever listens hears every change from there on, each with what it replaces |
| ProactiveConfig.Service.Run | apps/assistant/src/proactive/proactive-config.service.ts:66-99 | from the start, listeners hear the valid configurations without repetition |
| ProactiveConfig.AnnouncementsAreChanges | apps/assistant/src/proactive/proactive-config.service.ts:91-111 | what is announced is the sequence of valid configurations without repetitions, each with the one it replaces |
| ProactiveConfig.AnnouncementsDiffer | apps/assistant/src/proactive/proactive-config.service.ts:91-99 | no configuration is announced twice in a row |
| ProactiveConfig.EveryConfigIsAnnounced | apps/assistant/src/proactive/proactive-config.service.ts:91-99 | every valid configuration is announced, and no other |
| Sorting.SortStable | apps/assistant/src/proactive/muneral-reader.service.ts:191-197 | the library sort keeps the order of equals |
| Sorting.TextOrderIs | apps/assistant/src/health/build-fingerprint.ts:196 | paths are ordered by the first character in which they differ, a prefix first |
| Sorting.SortIgnoresListing | apps/assistant/src/health/build-fingerprint.ts:196 | under a total order the sorted list does not depend on the listing |

## Left out

- The circuit breaker lives in `opossum`, which is not part of this model; a call may fail without a fetch.
- Approval policies are json-logic conditions; the decision whether a tool needs approval is a parameter of `Propose`.
- Repeatable-job reconciliation rests on BullMQ's key format.
- HTTP, Telegram, Nest wiring, YAML and Zod: inputs are taken as validated, replies and failures are parameters.
- `Intl.DateTimeFormat` is an arbitrary offset function of whole seconds; an invalid run date, which the source lets throw, does not exist among day numbers, and a job that brings its own `runDate` is outside `DailyMessageAtMostOnce`.
- SHA-256 is an injective function into text without NUL; symbolic links and unreadable files are not in the trees; paths are ordered by code point on both sides, where TypeScript compares UTF-16 units.
- Python's listing order: any permutation of the listing is covered instead.
- `workspaceRoot`, `read_health` and `digest_at`: finding the root, polling the service and extracting a commit's tree.
- `describeUnavailable`'s wording, and `referenceOf`, which no message uses.
- `localeCompare` on project ids is the ordering of text by character, as it is on UUIDs.
- The wording of a line (`ProjectRow`, `DigestCount` and the like) is a definition shared by message and intent; what is proved is that each line shows it unchanged, in its place and style, and that each number in it stands behind its own name.
- Numbers in messages are written as plain decimals, without the exponent JavaScript uses from 10^21 on.
- The failure counter's threshold and its self-heal event; the count over several calls is stated for calls whose commands are answered.
- `SpanFrame.parentTraceId`, which nothing reads, and the identity of random ids.
- `listAgents` and `listIntents` give sets, without the order of insertion.
- The tool table of the callback handler maps every name to itself after a slash; names that an object inherits, such as `constructor`, are not treated separately.
- A limiter with a negative window, or on a clock that goes back.
- Listeners that subscribe, unsubscribe or reload while being notified.
- DispatcherResults.AtMostOneAcknowledgedSend: its two conditions are assumed of the whole run; that a run which breaks one may still happen to send once is why the converse is stated of what the run can go on to.
- LocalMidnight.WindowIsRightIff: asks for one change of offset over the days around the window and offsets of less than a day; two changes are covered by `StartIsMidnightIff` and a counterexample.
- Processor.DailyMessageAtMostOnce: the bound on a job is assumed, the source sets none; it is shown exact for zones that never change.
