# Crawl, outreach and lead store: a verified model

This project models the parts of the portal whose correctness depends on several actors at once, and proves
what they promise over whole runs:

- **Dispatch** (`Outreach`, `Dispatch`, `Pacing`, `DailyLimit`, `LongestClaim`, `DispatchLoop`, `LoopProtocol`). Several dispatch workers claim rows, wait
  for a credential's slot, send, and mark, fail or requeue; a clock-driven sweep requeues stuck rows; workers crash.
  `Outreach` holds the tables with the methods that update them in place, `Dispatch` is the step relation over the
  same tables, `Pacing` runs it in real time against the FIFO lock of each credential. `DispatchLoop` is the worker's
  loop, and `LoopProtocol` shows that every run of it is a run of the protocol.
- **Crawl frontier** (`Frontier`, `Crawl`, `Discovery`, `Chains`, `Checkpoint`, `Resume`, `Engine`). A priority queue, the pending
  and visited pages, and the one-element budget lists that the pages of a pagination chain share. `Engine` is the
  engine with those lists as heap objects; the other modules reason about the frontier with the identity of a list
  as a type parameter, so that a saved, a resumed and a running frontier can be compared. `Discovery` says which links
  of a page are followed, without the link loop.
- **Outbox to lead store** (`Outbox`, `Delivery`, `EndToEnd`, `LeadStore`, `LeadOrder`, `LeadDb`). A durable local outbox,
  any number of flushers sharing it, a cloud that may store an item, refuse it or fail half-way, and an
  enrich-on-conflict store that has to absorb replays.
- **Merge of duplicate leads** (`Dedupe`), **catalog attribution** (`Catalog`), **job lifecycle** (`Jobs`), **candidate
  binding** and **span cutting** (`Binding`, `AddressCut`).

Code that updates state in place is a class whose methods are proved against functions of the old state; loops
keep their loops. The theorems are about those functions, over every run of the step relations. What the functions
themselves mean is stated apart from them, with the program's own numbers and names: times in microseconds, reply
codes, rung names, column names.

## Where the code differs from what it says

- A sweep can take a row from a live worker, so "at most once plus the ambiguous events" is false without a bound on
  the age of a claim. `Dispatch.DeliveriesBounded` adds the premature sweeps; `Dispatch.AtMostOnceExactly` shows the
  plain bound is guaranteed for claims up to a given age exactly when that age is at most 600 seconds.
- A dispatch run that finds nothing to send completes the campaign even while drafts remain; the end of the loop
  pauses it instead. `DispatchLoop.RunCampaignDispatch` states that this is the only way to complete with drafts left,
  and `DispatchLoop.CompletedWithADraft` shows one.
- A refused recipient fails the row even for the temporary reply codes 421, 450 and 451 (section 4.2.3 of RFC 5321) that
  requeue it when they arrive as a plain response (`Outreach.OutreachDb.HandleSendError`,
  `Outreach.TemporaryRefusalIsFinal`).
- An acked row need not be in the store: a save that raises is reported per item while the request succeeds, and the
  whole batch is acked. `EndToEnd.AckedAndLost` is such a run, `EndToEnd.AbsorbedExactlyWhenVouched` says exactly
  when a row is in the store whatever the run.
- A resume unions in a bootstrap computed anew, so it is exact only when the bootstrap brings no new key
  (`Checkpoint.ResumeIsExact`); otherwise the resumed crawl is the interrupted one with those keys visited as well, and
  `Resume.GrownBootstrapSkipsLinks` shows a link it no longer follows.
- A save that fails after the lead's commit counts for the lead, so "first stored, first served" is false of replays:
  `EndToEnd.HalfWayCounts` shows it at three deliveries. What is true is that a row counts once for its lead, at its
  first delivery that reached it, and once for its occurrence, at its first delivery that was stored
  (`EndToEnd.StoreIsOnceInEffect`).
- `resume_job` leaves an old `last_heartbeat_at` in place, so the next sweep may interrupt the job at once
  (`Jobs.ResumedAndSweptAtOnce`); `Jobs.ResumeGraceIff` gives the exact condition.
- A finish with a status that is not terminal is overwritten by the next one (`Jobs.SecondFinishWins`,
  `Jobs.FinishWinsIffTerminal`). The endpoint takes any status (cloud/api/coordination.py:182); the agent sends only
  done, failed and cancelled (agent/api.py:106-116, portal/main.py:167-170).
- `start_job` on its own would overwrite a terminal status and keep an old heartbeat (`Jobs.TerminalIsFinalIff`,
  `Jobs.StartRevivesFinishedJob`, `Jobs.StartGraceIff`). Its only caller starts a job created in the same request
  (cloud/api/coordination.py:123), so neither happens in this program: there, a terminal status stays exactly until
  the next resume (`Jobs.TerminalUntilResume`) and a start always has its grace (`Jobs.ProgramStartHasGrace`).
- A catalog URL with a port is indexed with the port, and page hosts are looked up without one, so such a row gets not
  even its own page (`Catalog.PortRowGetsNothing`). `Catalog.OwnPageAttributedIff` says exactly when a row's own page is
  attributed.
- Cutting a text that has no at-sign puts one in front (`AddressCut.TextGainsAt`); `AddressCut.LocalPartUntouched` says
  what becomes of any text. The three callers (agent/crawler/parser.py:373, 424, 811) pass matches of the address
  pattern, which with the default pattern (agent/crawler/parser.py:199, 787) hold an at-sign.
- Captures of an address are order-independent up to two things, and `LeadOrder.OrdersAgreeExactly` says exactly when the
  orders agree. A whitespace-only name, designation or phone that arrives first keeps a real one out
  (`LeadOrder.WhitespaceNameBlocks`); in the other fields such a value does no harm. A capture that claims a host-name
  department without carrying one is given the snapshot's title only if it comes first
  (`LeadOrder.UnstatedDepartmentDependsOnOrder`). The agent sends neither: it strips phones, names, designations and
  table cells and drops what is left empty (agent/crawler/parser.py:230-259, 744, 758, 915), and writes `url_default`
  only beside a department (agent/crawler/parser.py:849-853). Only a foreign client's payload reaches these cases.
- Both credential queries (cloud/db/mixins/outreach_mixin.py:216, 630) test a column with Python's `is None`, which is
  false, so as written they select no credential that never cooled. The model follows their docstrings
  (cloud/db/mixins/outreach_mixin.py:205, 623): a credential is usable when it is active and not cooling. The campaign is
  read without the owner filter.

## Premises

- One database method, one locked outbox call, one catalog or job method is one atomic step; a claim always finds a
  row while one is queued, whatever the number of tries.
- HTTP, SMTP and the page fetch are outcomes: delivered or not, answered or not, and with which error. Clocks,
  random gaps, answers and query orders are parameters or free choices. Times are microseconds in dispatch and pacing
  and seconds for jobs.
- `urlparse`, the URL classifiers and the pagination test are fixed functions; parsed candidates and links are given.
- Lower-casing and whitespace are those of ASCII text.
- A malformed item is no capture at all. Attribution to a snapshot is an input of a capture; `urlDepartment` stands for
  the test that the department came from the host name only. Whether a save meets a fault, and which, is an input.
- Identities of budget lists are numbers handed out once; a checkpoint's chain keys are numbers in order of first
  mention. Checkpoints are taken between steps.
- `Pacing` assumes a FIFO lock, no delay between two suspension points, and a bound on one send.

## Model

| member | source | states |
|---|---|---|
| Outreach.OutreachDb.ClaimNextQueuedEmail | cloud/db/mixins/outreach_mixin.py:393-424 | claims the lowest queued row of the campaign with its start time, and nothing exactly when none is queued |
| Outreach.OutreachDb.RecoverStuckSending | cloud/db/mixins/outreach_mixin.py:426-448 | requeues exactly the SENDING rows older than 600 seconds and reports them |
| Outreach.OutreachDb.MarkEmailSent | cloud/db/mixins/outreach_mixin.py:450-460 | the row becomes SENT with time and credential, whatever its status was; a missing row changes nothing |
| Outreach.OutreachDb.HandleSendError | cloud/api/dispatcher.py:171-227 | the row ends queued exactly for an authentication or network error or reply 421, 450 or 451, else failed; only an authentication error disables the credential, a network error cools it for 900 s and those replies for 3600 s; the recipient is blacklisted exactly for 550 or 553 |
| Outreach.TemporaryRefusalIsFinal | cloud/api/dispatcher.py:178-214 | code 450 requeues as a response and fails as a refused recipient |
| Outreach.HardBounceIsFinal | cloud/api/dispatcher.py:178-184 | reply 550 fails the row and leaves the credential alone |
| Outreach.OutreachDb.QueueCampaignEmails | cloud/db/mixins/outreach_mixin.py:367-376 | only selected drafts of the campaign change, none stays a draft, and the count is the growth of the queue |
| Outreach.QueueGrowsBySelected | cloud/db/mixins/outreach_mixin.py:367-376 | queueing moves exactly the selected drafts from the drafts to the queue |
| Outreach.OutreachDb.CancelRemainingQueued | cloud/db/mixins/outreach_mixin.py:483-492 | only queued rows of the campaign change, none stays queued, and the count is the growth of the failed rows |
| Outreach.CancelEmptiesQueue | cloud/db/mixins/outreach_mixin.py:483-492 | cancelling moves exactly the queue to the failed rows |
| Outreach.SelectionReaches | cloud/db/mixins/outreach_mixin.py:324-356 | a selection reaches drafts and queued rows only, a deselected row is a draft, and selecting all reaches the campaign's rows only |
| Outreach.OutreachDb.ResolveCredentialPool | cloud/api/dispatcher.py:38-47 | the assigned, or else all, credentials that are active, not cooling and under their limit of messages sent since 00:00 UTC, each once |
| Outreach.CountsSinceMidnight | cloud/db/mixins/outreach_mixin.py:681-693 | a message counts against a credential exactly when it went through it and no midnight lies between |
| Outreach.LimitHoldsUntilMidnight | cloud/api/dispatcher.py:38-47 | a credential that has used up its limit is in no pool until the next midnight |
| Outreach.MidnightResetsTheCount | cloud/db/mixins/outreach_mixin.py:681-693 | at midnight nothing sent before counts, and an active credential is in the pool again |
| Outreach.OnePerDay | cloud/api/dispatcher.py:38-47 | a limit of one, used at eight: an empty pool at nine, a full one at midnight |
| Dispatch.StepExposure | cloud/api/dispatcher.py:118-227 | every step keeps deliveries plus possible deliveries of a row within 1 + ambiguous + premature |
| Dispatch.DeliveriesBounded | cloud/api/dispatcher.py:118-227 | in every run a row is delivered at most 1 + ambiguous events + premature sweeps times |
| Dispatch.SweepKeepsClaims | cloud/db/mixins/outreach_mixin.py:426-448 | while claims are younger than the threshold the sweep takes no row from a live worker |
| Dispatch.StepClaimsRecorded | cloud/api/dispatcher.py:118-227 | each live claim stays exactly the claim its row records |
| Dispatch.StepFinal | cloud/db/mixins/outreach_mixin.py:450-481 | no step changes a SENT or FAILED row |
| Dispatch.StatusMoves | cloud/api/dispatcher.py:118-227 | every change of status in a step has one of the listed causes: claim, confirmation, error code, sweep after 600 s, queueing, cancelling, deselecting |
| Dispatch.EventMovesRow | cloud/api/dispatcher.py:118-227 | and each of these events makes that change |
| Dispatch.ClaimTakesLowest | cloud/db/mixins/outreach_mixin.py:393-424 | a claim takes the lowest queued row of the campaign |
| Dispatch.StepTallies | cloud/api/dispatcher.py:118-227 | what counts as delivered, as ambiguous and as premature |
| Dispatch.TimelyRunIsSafe | cloud/api/dispatcher.py:118-227 | if claims resolve in 600 s: one live owner per SENDING row, deliveries at most 1 + ambiguous |
| Dispatch.TimelyRunKeepsFinalRows | cloud/db/mixins/outreach_mixin.py:426-481 | in such runs SENT and FAILED rows keep every column to the end |
| Dispatch.SlowClaimDeliversTwice | cloud/db/mixins/outreach_mixin.py:426-448 | a run in which a claim one microsecond too old is delivered twice without ambiguity |
| Dispatch.AtMostOnceExactly | cloud/db/mixins/outreach_mixin.py:426-448 | the bound 1 + ambiguous holds for all runs with claims up to an age exactly when that age is at most 600 s |
| Dispatch.StepLoad | cloud/api/dispatcher.py:149-168 | sent today plus in flight stays at most L - 1 + N in every step |
| Dispatch.DailyLimitHolds | cloud/db/mixins/outreach_mixin.py:681-693 | a credential's count never exceeds L + N - 1 in any run, also across midnight; L for one worker |
| DailyLimit.LimitIsReached | cloud/api/dispatcher.py:38-47 | for every N and L some run reaches L + N - 1, so the bound is exact |
| LongestClaim.ClaimLimitIsReached | cloud/api/dispatcher.py:50-61 | for every number of workers and send time some claim grows exactly 90 N seconds plus the send old |
| Pacing.CredentialPacer.WaitForCredentialSlot | cloud/api/dispatcher.py:50-61 | grants at least 30 s after the last grant and records the grant |
| Pacing.StepTimedInv | cloud/api/dispatcher.py:50-61 | every timed step keeps each queue able to afford the waits before it |
| Pacing.WaiterDies | cloud/api/dispatcher.py:50-61 | a crash can hit a waiting task at any time: the others close up in their order and nobody is granted a slot |
| Pacing.ClaimsResolveInTime | cloud/api/dispatcher.py:50-61 | with N workers a claim is never older than 90 N seconds plus one send |
| Pacing.PacedDispatchIsSafe | cloud/api/dispatcher.py:118-227 | if 90 N plus the send time is at most 600 s no sweep takes a held row and deliveries are at most 1 + ambiguous |
| Pacing.SpacedWindow | cloud/api/dispatcher.py:50-61 | times at least 30 s apart put at most floor(W/30)+1 into a window of W |
| Pacing.GrantRateBounded | cloud/api/dispatcher.py:50-61 | in every run a window of W seconds has at most floor(W/30)+1 grants per credential |
| DispatchLoop.RoundRobinIsFair | cloud/api/dispatcher.py:30-35 | as many successive calls as there are credentials choose each exactly once, wherever the round starts |
| DispatchLoop.PenaltyDisables | cloud/db/mixins/outreach_mixin.py:636-679 | after a retried error the credential just used is unusable |
| DispatchLoop.SettledPass | cloud/api/dispatcher.py:170-227 | a pass that settles or retries its row lowers queued rows plus usable credentials |
| DispatchLoop.DispatchPass | cloud/api/dispatcher.py:118-227 | one pass: the lowest queued row is claimed, the next credential of the round sends, and rows, credentials and the round are exactly as that turn leaves them; the row is left SENDING when no credential is left |
| DispatchLoop.TurnProgress | cloud/api/dispatcher.py:118-227 | a turn lowers queued rows plus usable credentials, as long as no cooldown runs out |
| DispatchLoop.TurnTouches | cloud/api/dispatcher.py:118-227 | a turn changes its row only, adds nothing to the queue, and the row is sent exactly when the server took the message |
| DispatchLoop.DispatchQueued | cloud/api/dispatcher.py:118-227 | the loop takes at most Q + C + 1 passes over any stretch of time in which no cooldown runs out, midnight included; rows, credentials and accepted messages are exactly those of its turns, and what each exit leaves behind |
| DispatchLoop.RunCampaignDispatch | cloud/api/dispatcher.py:94-227 | the same for a whole run, from the selected drafts queued on; it completes with drafts left exactly when there was nothing to send and a draft to leave |
| DispatchLoop.CompletedWithADraft | cloud/api/dispatcher.py:103-106 | a run that completes and leaves a draft |
| LoopProtocol.TurnIsARun | cloud/api/dispatcher.py:118-227 | one turn of the loop is a legal sequence of protocol events with the same effect |
| LoopProtocol.LoopIsARun | cloud/api/dispatcher.py:118-227 | a whole run of the loop is a legal protocol run with the same tables at its end and the same deliveries |
| LoopProtocol.ExitIsARun | cloud/api/dispatcher.py:109-157 | the loop's exits are protocol events: it leaves with nothing queued, or leaves its claimed row behind for want of a credential |
| LoopProtocol.RowOutlivesWorker | cloud/db/mixins/outreach_mixin.py:426-448 | any worker can crash at any time; the first sweep after 600 s queues its row again and the worker can restart |
| LoopProtocol.UsersChange | cloud/db/mixins/outreach_mixin.py:194-222 | credentials can be assigned and edited at any time, and nothing else changes |
| LoopProtocol.UsersSelect | cloud/db/mixins/outreach_mixin.py:324-356 | rows can be selected at any time, and nothing but the rows changes |
| LoopProtocol.UsersQueue | cloud/db/mixins/outreach_mixin.py:367-376 | a campaign can be started or cancelled at any time, and nothing but the rows changes |
| LoopProtocol.LoopDeliversOnce | cloud/api/dispatcher.py:118-227 | in a run of the loop a message is taken at most once, plus once for each send that ended in doubt |
| Frontier.EnqueueLinksAdds | agent/crawler/engine.py:627-716 | link discovery as the pages it appends: unvisited distinct keys, hops, depth, budget spent |
| Frontier.ScanLinksInv | agent/crawler/engine.py:661-716 | the link loop's invariant over any number of links |
| Discovery.LinksFollowedExactly | agent/crawler/engine.py:627-716 | the pages appended are those of the followed links, all and no other, in document order, a next page at the same depth and a child one deeper; the chain pays for its children |
| Discovery.KeyVisitedIff | agent/crawler/engine.py:652-716 | a key is visited afterwards exactly when it was before, or a link of that key is neither skippable nor off target and is the elected target with hops to spare, or a child on a seed or priority page, or a priority link, while there is room under the page cap or in the chain budget |
| Discovery.UncappedPageFollowsAll | agent/crawler/engine.py:661-716 | off a chain and without a link cap every wanted link is followed |
| Discovery.BackpressureFollowsNothing | agent/crawler/engine.py:637-645 | under backpressure no link is followed and all count as skipped |
| Discovery.PageIsExpanded | agent/crawler/engine.py:417-500 | a free worker can take the next page and, above the depth limit, follow its links: the frontier grows by exactly the pages of the followed ones |
| Discovery.DeepPageIsNot | agent/crawler/engine.py:490-500 | a page at the depth limit is fetched and its links are not followed |
| Discovery.SeedsQueued | agent/crawler/engine.py:104-135 | every seed on target and not visited before is queued in order at depth 0, and does not count as visited |
| Crawl.StepKeepsBooks | agent/crawler/engine.py:104-135 | each step keeps pending = queued + in flight, one acknowledgement per get, non-seed keys apart and visited |
| Crawl.RunKeepsBooks | agent/crawler/engine.py:417-500 | the same over every run of any number of workers |
| Crawl.RunsAreFinite | agent/crawler/engine.py:417-444 | over finitely many keys no run is longer than its starting potential |
| Crawl.CrawlProgresses | agent/crawler/engine.py:417-444 | a worker can move exactly while something is unfinished, so a stuck crawl has drained |
| Crawl.FreshBooks | agent/crawler/engine.py:242-244 | a fresh run keeps the books from its seeds on |
| Chains.StepKeepsChainInv | agent/crawler/engine.py:652-716 | one step keeps paths, budgets and depths of every chain |
| Chains.ChainsBounded | agent/crawler/engine.py:652-716 | pages sharing a list form a path of at most max_pagination_pages, the list counts their structural children, at most max_chain_children, and depth stays within a positive max_depth |
| Chains.PathIsShort | agent/crawler/engine.py:687-691 | pages with pairwise different hops in 1..max are at most max |
| Chains.CrawlFromSeeds | agent/crawler/engine.py:242-244 | enqueueing any seeds gives a start state to which the bounds apply |
| Checkpoint.IsoAliasing | agent/crawler/engine.py:346-413 | isomorphic frontiers share lists between the same pages, with equal values |
| Checkpoint.SnapshotIsCanonical | agent/crawler/engine.py:346-380 | two frontiers write the same snapshot exactly when they are isomorphic |
| Checkpoint.ResumeIsExact | agent/crawler/engine.py:178-207 | for every bootstrap the rebuilt frontier is the saved one with the bootstrap visited, all queued again; it is the saved one exactly when the bootstrap brings nothing new; later counters do not collide |
| Checkpoint.EveryColumnComesBack | agent/crawler/engine.py:346-413 | every column of every saved page, the counters and the visited keys come back, and pages share a list exactly when they did |
| Resume.DiscoverKeepsIso | agent/crawler/engine.py:627-716 | matching link discovery on both sides keeps the isomorphism |
| Resume.DoneKeepsIso | agent/crawler/engine.py:417-444 | finishing the same page keeps the isomorphism |
| Resume.SameQueueOrder | agent/crawler/engine.py:117-135 | isomorphic frontiers hand out pages in the same order |
| Resume.SameNext | agent/crawler/engine.py:417-444 | the same page is next on both sides |
| Resume.PlayKeepsIso | agent/crawler/engine.py:417-500 | any sequence of matching moves keeps the isomorphism |
| Resume.PlayableAlike | agent/crawler/engine.py:417-500 | moves that one of two isomorphic frontiers can make, the other can make with fresh lists of its own |
| Resume.ResumedCrawlContinues | agent/crawler/engine.py:178-207 | for every bootstrap the resumed crawl can make any moves the interrupted one could make with the bootstrap visited, and after them both write the same snapshot |
| Resume.GrownBootstrapSkipsLinks | agent/crawler/engine.py:203-207 | a bootstrap grown by one key and the link that is then skipped |
| Resume.ResumedBooks | agent/crawler/engine.py:382-413 | a resumed run starts with its books in order for every bootstrap, so it drains too |
| Engine.ElectPaginationTarget | agent/crawler/pagination.py:55-76 | the first accepted link whose rel holds "next", else the first accepted link, else none |
| Engine.CrawlerEngine.Enqueue | agent/crawler/engine.py:104-135 | the heap version does what the frontier's enqueue says |
| Engine.CrawlerEngine.JudgeLink | agent/crawler/engine.py:661-716 | the chain of conditions decides as the frontier's rule |
| Engine.CrawlerEngine.DiscoverLink | agent/crawler/engine.py:661-716 | one link updates frontier, skip count and the shared list as specified |
| Engine.CrawlerEngine.DiscoverLinks | agent/crawler/engine.py:661-716 | the loop over all links, with its break |
| Engine.CrawlerEngine.EnqueueLinks | agent/crawler/engine.py:627-716 | link discovery of one page on the heap is link discovery on the frontier |
| Engine.CrawlerEngine.TakeNext | agent/crawler/engine.py:417-444 | takes the queued page of the lowest priority, and of these the one queued first |
| Engine.CrawlerEngine.FinishPage | agent/crawler/engine.py:417-444 | the page leaves pending and the queue counts one less |
| Engine.CrawlerEngine.SaveCheckpoint | agent/crawler/engine.py:346-380 | writes the canonical snapshot of the heap |
| Engine.CrawlerEngine.RehydrateItems | agent/crawler/engine.py:382-413 | puts the items back in order, each with the list of its key |
| Engine.CrawlerEngine.RehydrateFrontier | agent/crawler/engine.py:382-413 | rebuilds the snapshot with fresh lists, one per chain key |
| Engine.CrawlerEngine.MintChains | agent/crawler/engine.py:395 | one fresh list per key with its saved value, no two keys sharing |
| Outbox.LocalOutbox.Enqueue | agent/local_store.py:116-122 | a new row with no attempts under an id above all ids there ever were |
| Outbox.LocalOutbox.PendingBatch | agent/local_store.py:124-130 | the oldest rows of a kind, oldest first, none left out below the limit |
| Outbox.LocalOutbox.Ack | agent/local_store.py:132-137 | exactly the given rows are gone |
| Outbox.LocalOutbox.Fail | agent/local_store.py:139-155 | one attempt more, or the dead table at the eighth; a missing row changes nothing |
| Outbox.LocalOutbox.IsDrained | agent/local_store.py:157-160 | true exactly when no row of the job is queued |
| Outbox.BatchMakesProgress | agent/cloud_client.py:164-185 | whatever the answer, the failures still possible strictly decrease while a row is queued |
| Outbox.CloudApiClient.FlushKind | agent/cloud_client.py:164-185 | acks the whole batch or fails each of its rows |
| Outbox.CloudApiClient.DrainBeforeFinish | agent/cloud_client.py:101-111 | ends drained whenever the deadline leaves room for as many flushes as there are failures left, whatever the answers |
| Delivery.FlushesAreBounded | agent/cloud_client.py:101-192 | the same bound on the flushes of one flusher while any others run: once no rows are added it finishes at most as many as failures were left, and with that many the outbox is empty |
| Delivery.FlushIsARun | agent/cloud_client.py:164-192 | every flush can go each way: a full batch posted once or twice, any of its items handled with any outcomes, then acked, failed, given up or crashed; the outbox ends as the flusher's own method leaves it |
| Delivery.RequestGoesOn | agent/cloud_client.py:164-178 | the cloud can go on with a request whether or not anybody waits for its answer |
| Delivery.RejectedAllBalances | agent/local_store.py:139-155 | failing a stale batch keeps every row in exactly one place and buries each dead row once |
| Delivery.AcceptedWereProcessed | agent/cloud_client.py:168-178 | an accepted batch was processed by the cloud item by item |
| Delivery.StepBalances | agent/cloud_client.py:164-192 | every step of flushers, cloud and crashes keeps the books of the outbox |
| Delivery.RunBalances | agent/cloud_client.py:101-192 | in every run each row is queued, acked or dead, only one of these and finally; dead at its eighth failure, never after an ack; acked means processed |
| Delivery.DrainedIffSettled | agent/local_store.py:157-160 | drained exactly when every row is acked and processed, or dead after eight failures |
| EndToEnd.FirstDeliveriesAreDistinct | agent/cloud_client.py:164-185 | dropping replays and refusals keeps each stored row once, in the order of the first delivery that stored it |
| EndToEnd.FirstReachedAreDistinct | agent/cloud_client.py:164-185 | dropping refusals and all repeats leaves one delivery of each row that reached its lead, in the order they first did |
| EndToEnd.AbsorbedExactlyWhenVouched | cloud/db/mixins/lead_mixin.py:66-250 | a row is in every store that sees the deliveries exactly when those that were stored or reached the lead bring all it says |
| EndToEnd.StoreIsOnceInEffect | cloud/db/mixins/lead_mixin.py:85-250 | in every run without edits the leads are as if each row had been delivered once, at its first delivery that reached its lead, and the occurrences are those recorded at the first delivery that stored each row |
| EndToEnd.DeliveredOnceInEffect | agent/cloud_client.py:164-185 | the same of a store that sees the deliveries of any run of the flushers, with each row in both orders once; acked rows were processed, and are in the store for sure exactly when vouched for |
| EndToEnd.HalfWayCounts | cloud/db/mixins/lead_mixin.py:76-83 | three deliveries of two rows after which the lead is not what storing each row once, in the order they were stored, would give |
| EndToEnd.AckedAndLost | cloud/db/mixins/lead_mixin.py:76-83 | a run that drains the outbox, acks the row and leaves the store without it |
| LeadStore.ComputeLeadScore | shared/scoring.py:17-32 | zero for manual leads, else the weights of the non-blank fields, by band |
| LeadStore.ScoresStayTrue | cloud/db/mixins/lead_mixin.py:145-247 | after any captures, uploads, edits and recomputes every stored score is the score of its row |
| LeadStore.ScoresArePercentages | shared/scoring.py:17-32 | with weights of at most 100 in total every stored score is in 0..100 |
| LeadStore.ScoreAddsUp | shared/scoring.py:17-32 | each field with text adds its own weight, the address more for HIGH, nothing for a manual lead |
| LeadStore.EnrichNeverLowers | cloud/db/mixins/lead_mixin.py:145-180 | enriching never lowers a score |
| LeadStore.SaveNeverLowers | cloud/db/mixins/lead_mixin.py:109-250 | a capture loses no lead and lowers no score if HIGH weighs at least LOW |
| LeadStore.SameLowerIff | cloud/db/mixins/lead_mixin.py:130-132 | two addresses have the same lower-cased form exactly when they differ in the case of ASCII letters only |
| LeadStore.CaseVariantsMeet | cloud/db/mixins/lead_mixin.py:130-132 | two captures whose addresses differ in letter case only meet in one lead |
| LeadStore.FilledIs | cloud/db/mixins/lead_mixin.py:145-150 | a field with text keeps it, a blank one takes the captured value |
| LeadStore.BandAfterCapture | cloud/db/mixins/lead_mixin.py:145-180 | HIGH once any capture was HIGH, else LOW once any was LOW; an upgrade brings its provenance, and nothing else of the lead changes but fields and score |
| LeadStore.InsertedAsCaptured | cloud/db/mixins/lead_mixin.py:181-250 | a new lead column by column, and its occurrence |
| LeadStore.UploadCreates | cloud/db/mixins/lead_mixin.py:665-738 | a sheet's row for a new address makes a manual lead of its four columns |
| LeadStore.UploadOverrides | cloud/db/mixins/lead_mixin.py:665-738 | on a manual lead the filled columns override, the others stay |
| LeadStore.UploadLeavesCrawled | cloud/db/mixins/lead_mixin.py:665-738 | a crawled lead stays as it is, and the upload is on record |
| LeadStore.EditedColumns | cloud/db/mixins/lead_mixin.py:745-776 | an edit writes each column it names and no other |
| LeadStore.CrawledStateIsKept | cloud/db/mixins/lead_mixin.py:745-776 | the state of a crawled lead is not edited |
| LeadStore.StripIs | cloud/db/mixins/lead_mixin.py:748-752 | stripping cuts all white space off both ends and nothing else |
| LeadStore.AbsorbedIffUnchanged | cloud/db/mixins/lead_mixin.py:132-250 | a capture changes nothing exactly when the store already holds all it says |
| LeadStore.SavedAbsorbs | cloud/db/mixins/lead_mixin.py:109-250 | right after a capture the store holds all it says; after one that failed half-way, all it says of the lead |
| LeadStore.StepKeepsAbsorbed | cloud/db/mixins/lead_mixin.py:109-250 | captures, uploads and recomputes keep that; only edits can undo it |
| LeadStore.ReplaysAreAbsorbed | cloud/db/mixins/lead_mixin.py:127-250 | refused deliveries and replays have no effect in any run without edits, whatever came in between |
| LeadStore.EachRowCountsOnce | cloud/db/mixins/lead_mixin.py:132-250 | the leads of such a run are those of the run that delivers each row once, when it first got as far as its lead |
| LeadStore.OccurrencesAreRecorded | cloud/db/mixins/lead_mixin.py:85-107 | the occurrences after any run are what it records, the first of each lead and job, under the ids leads end with |
| LeadStore.EditReopensReplay | cloud/db/mixins/lead_mixin.py:745-776 | an edit after which a replay writes again |
| LeadOrder.CapturesSummarised | cloud/db/mixins/lead_mixin.py:132-250 | a lead is the summary of its captures: filled fields, scored fields whose first value has text, highest band, score, jobs |
| LeadOrder.OrdersAgreeExactly | cloud/db/mixins/lead_mixin.py:132-217 | two orders agree exactly when a department is stated, or both first captures take the snapshot title, or neither, and the names, designations and phones stated first are worth the same |
| LeadOrder.OrderDoesNotMatter | cloud/db/mixins/lead_mixin.py:132-250 | for captures as the agent sends them any order gives the same filled fields, band, score and jobs |
| LeadOrder.WhitespaceNameBlocks | cloud/db/mixins/lead_mixin.py:145-150 | an input, sent by no agent: a whitespace-only name and a real one, whose order decides the score |
| LeadOrder.UnstatedDepartmentDependsOnOrder | cloud/db/mixins/lead_mixin.py:49-59 | an input, sent by no agent, on which the orders disagree |
| LeadDb.FillBlanks | cloud/db/mixins/lead_mixin.py:145-150 | fills exactly the blank fields the candidate has, and reports a change exactly when there is one |
| LeadDb.LeadDb.RecordOccurrence | cloud/db/mixins/lead_mixin.py:85-107 | first capture by a job wins |
| LeadDb.LeadDb.EnrichLead | cloud/db/mixins/lead_mixin.py:145-180 | blanks filled, band only raised, rescored when changed |
| LeadDb.LeadDb.SaveLead | cloud/db/mixins/lead_mixin.py:109-250 | enriches or inserts under the lower-cased address and records the occurrence; rejects a missing address or a colliding insert; what is left when it raises before or after the lead is committed |
| LeadDb.LeadDb.BulkSaveLeads | cloud/db/mixins/lead_mixin.py:66-83 | each item on its own; an item is reported as stored exactly when it is well-formed, has an address and meets no fault |
| LeadDb.StoredItemsAreAbsorbed | cloud/db/mixins/lead_mixin.py:66-83 | an item reported as stored is in the store at the end of its batch |
| LeadDb.BatchKeepsScored | cloud/db/mixins/lead_mixin.py:66-83 | a batch keeps every stored score true, whatever faults it meets |
| LeadDb.LeadDb.UpsertManualLead | cloud/db/mixins/lead_mixin.py:665-738 | creates, updates a manual lead, leaves a crawled one or gives way to a colliding insert, and records the occurrence |
| LeadDb.LeadDb.BulkUpsertManualLeads | cloud/db/mixins/lead_mixin.py:651-741 | counts add up, the table grows by the imported rows, skipped are exactly those that collided or belong to crawled leads |
| LeadDb.LeadDb.RecomputeLeadScores | cloud/db/database.py:140-177 | every score becomes the score of its row, nothing else changes |
| LeadDb.LeadDb.UpdateLead | cloud/db/mixins/lead_mixin.py:743-776 | edits the allowed columns, protects the state of crawled leads, rescores |
| Dedupe.Canonical | alembic/versions/0028_dedupe_lead_email_global.py:46-47 | the row with the highest band, then the lowest id |
| Dedupe.CanonicalIsHighest | alembic/versions/0028_dedupe_lead_email_global.py:46-47 | HIGH before LOW before no band, the lowest id among equals |
| Dedupe.MergeNext | alembic/versions/0028_dedupe_lead_email_global.py:69-107 | merging one more duplicate keeps addresses, campaign e-mails and (address, job) pairs |
| Dedupe.MergeMigration.RepointOccurrences | alembic/versions/0028_dedupe_lead_email_global.py:91-105 | moves the duplicate's occurrences one by one, dropping those the canonical row has |
| Dedupe.MergeMigration.MergeRow | alembic/versions/0028_dedupe_lead_email_global.py:69-107 | all effects of merging one row |
| Dedupe.MergeMigration.MergeGroup | alembic/versions/0028_dedupe_lead_email_global.py:58-108 | one address reduced to its canonical row |
| Dedupe.MergeMigration.DedupeLeads | alembic/versions/0028_dedupe_lead_email_global.py:50-109 | canonical rows stay with band and filled-in fields, campaign e-mails keep their address, pairs are kept, (lead, job) unique, count exact |
| Dedupe.OneLeadPerEmail | alembic/versions/0028_dedupe_lead_email_global.py:50-109 | exactly one lead per address, no address lost, band the maximum of its group |
| Dedupe.SecondRunChangesNothing | alembic/versions/0028_dedupe_lead_email_global.py:50-109 | a second pass leaves every table as it is |
| Catalog.JoinSplit | cloud/db/domain_resolution.py:27-29 | the first candidate is the host itself |
| Catalog.LabelsHaveNoDots | cloud/db/domain_resolution.py:27-29 | the labels of a host are what lies between its dots |
| Catalog.CandidatesAreSuffixes | cloud/db/domain_resolution.py:28-35 | each candidate is an end of the host, longest first |
| Catalog.BuildNetlocDomainMap | cloud/db/mixins/domain_mixin.py:31-57 | whatever the row order, each host once with its lowest id |
| Catalog.IndexIsUnique | cloud/db/mixins/domain_mixin.py:31-57 | there is only one such index |
| Catalog.WwwAndCaseDoNotMatter | cloud/db/mixins/domain_mixin.py:31-57 | letter case and a leading "www." change neither a row's key nor a page's host; a port stays in the key only |
| Catalog.ResolveDomainForUrl | cloud/db/domain_resolution.py:11-36 | the loop is the walk over label suffixes |
| Catalog.WalkIsTheRule | cloud/db/domain_resolution.py:28-36 | the walk finds the longest listed suffix with no public suffix reached first, else nothing |
| Catalog.AttributionIsUnique | cloud/db/domain_resolution.py:28-36 | the rule determines the answer |
| Catalog.PortsNeverMatch | cloud/db/mixins/domain_mixin.py:37-39 | no attributed row is listed with a port |
| Catalog.OwnPageAttributedIff | cloud/db/domain_resolution.py:20-36 | the page a row names is attributed to its key exactly when the key has no port, at least two labels and is not public |
| Catalog.PortRowGetsNothing | cloud/db/domain_resolution.py:21 | a row with a port and the page it names, which is not attributed |
| Catalog.LookupsFollowTheRows | cloud/db/mixins/domain_mixin.py:16-60 | after any writes and lookups a cached lookup follows the rows as they are |
| Catalog.GroupEntries | cloud/db/mixins/domain_mixin.py:172-184 | keys by first entry, contents by last entry |
| Catalog.CollapseEntries | cloud/db/mixins/domain_mixin.py:172-184 | one row per key, in order of first entry, with its last contents |
| Catalog.SameKeyIff | cloud/db/mixins/domain_mixin.py:172-184 | two entries are one row when they share an external id or, neither having one, a main URL |
| Catalog.DomainCatalog.GetNetlocDomainMap | cloud/db/mixins/domain_mixin.py:16-29 | the cache is the index of the current rows |
| Catalog.DomainCatalog.Attribute | cloud/db/domain_resolution.py:11-36 | attribution through the cache is the naive rule on current rows |
| Catalog.DomainCatalog.UpsertDomain | cloud/db/mixins/domain_mixin.py:80-131 | updates the row of the same external id, or of the same main URL when no external id is given, else inserts; and drops the cache |
| Catalog.DomainCatalog.UpdateDomainUrl | cloud/db/mixins/domain_mixin.py:133-152 | sets the URLs of an existing row and drops the cache |
| Catalog.DomainCatalog.ClearDomains | cloud/db/mixins/domain_mixin.py:154-158 | no rows, no stale cache |
| Catalog.DomainCatalog.ReplaceCatalog | cloud/db/mixins/domain_mixin.py:160-204 | the catalog becomes the collapsed entries, counted, and the cache is dropped |
| Jobs.NeverInterruptedIffInTime | cloud/db/mixins/job_mixin.py:67-157 | in every run of every job: never interrupted exactly when no sweep finds it running with its last sign of life older than the threshold and no finish asks for it |
| Jobs.PromptAgentIsNeverInterrupted | cloud/db/mixins/job_mixin.py:98-147 | from a heartbeat on, heartbeats within 150 s are enough, whatever the status was and whatever else is called |
| Jobs.PromptStartIsNeverInterrupted | cloud/db/mixins/job_mixin.py:67-75 | the same from a first start on |
| Jobs.StartGraceIff | cloud/db/mixins/job_mixin.py:67-75 | a start gives 150 s exactly when no older heartbeat is on record |
| Jobs.ResumeGraceIff | cloud/db/mixins/job_mixin.py:149-157 | a resume gives 150 s exactly when the last sign of life is no older than the resume |
| Jobs.ResumedAndSweptAtOnce | cloud/db/mixins/job_mixin.py:149-157 | a job resumed long after its last heartbeat and interrupted by the next sweep |
| Jobs.TerminalIsFinalIff | cloud/db/mixins/job_mixin.py:67-91 | done, failed and cancelled stay exactly in the runs without resume or start |
| Jobs.TerminalIsFinal | cloud/db/mixins/job_mixin.py:77-91 | and so do the time and the error of the finish |
| Jobs.StartRevivesFinishedJob | cloud/db/mixins/job_mixin.py:67-75 | a start on a finished job, which no route sends |
| Jobs.TerminalUntilResume | cloud/api/coordination.py:123 | in every run of the program a terminal status stays exactly until the next resume |
| Jobs.ProgramStartHasGrace | cloud/api/coordination.py:123 | in every run of the program a start gives 150 s |
| Jobs.FirstFinishWins | cloud/db/mixins/job_mixin.py:77-91 | the first terminal finish keeps status, error and time |
| Jobs.FinishWinsIffTerminal | cloud/db/mixins/job_mixin.py:77-91 | a finish survives every later finish exactly when its status is terminal |
| Jobs.SecondFinishWins | cloud/db/mixins/job_mixin.py:77-91 | two finishes of which the second overwrites the first |
| Jobs.CancelStaysUntilResume | cloud/db/mixins/job_mixin.py:93-122 | a cancel request stays until resume |
| Jobs.CancelRequestedIff | cloud/db/mixins/job_mixin.py:93-157 | in every run a cancel is requested exactly when one came after the last resume |
| Jobs.JobDb.StartJob | cloud/db/mixins/job_mixin.py:67-75 | running from now; nothing else changes |
| Jobs.JobDb.FinishJob | cloud/db/mixins/job_mixin.py:77-91 | sets status, time and error unless already terminal |
| Jobs.JobDb.SetCancelRequested | cloud/db/mixins/job_mixin.py:93-96 | sets the flag only |
| Jobs.JobDb.Heartbeat | cloud/db/mixins/job_mixin.py:98-122 | records the pulse, revives an interrupted job, reports the cancel flag |
| Jobs.JobDb.ReapStaleJobs | cloud/db/mixins/job_mixin.py:124-147 | interrupts exactly the silent running jobs and reports them |
| Jobs.JobDb.ResumeJob | cloud/db/mixins/job_mixin.py:149-157 | running again with the cancel flag cleared |
| Binding.GroupCandidates | agent/crawler/parser.py:478-512 | each address maps to its first candidate of the highest rung, with the phone of the last leader that had one and the context to fall back on; candidates without an address go to the pending ones when bracketed and to the phones when they have a phone |
| Binding.BestIsOnStrongestRung | agent/crawler/parser.py:484-510 | the chosen candidate is the first on mailto_tel if any names the address, else on microdata, else on table_block, else on proximity_text, else on an unknown rung |
| Binding.FallbackIsKept | agent/crawler/parser.py:494-510 | no context found after the winner is lost while there is none to fall back on |
| Binding.MappedNext | agent/crawler/parser.py:484-510 | one more candidate displaces, enriches or becomes the winner |
| Binding.AttachPhones | agent/crawler/parser.py:531-561 | the loops attach phones as specified: next to the phone first, else the first free entity |
| Binding.AttachesAsManyAsPossible | agent/crawler/parser.py:531-561 | exactly min(phones, entities without one) are attached |
| Binding.PhonesGoWhereNoneWas | agent/crawler/parser.py:531-561 | a phone is never overwritten, owners get their phone, nothing else changes |
| Binding.NoEntityGetsTwo | agent/crawler/parser.py:531-561 | no two phones go to the same entity |
| Binding.BindChannels | agent/crawler/parser.py:469-565 | one entity per address, from its winner on the strongest rung, phones attached, bracketed candidates passed through |
| Binding.StemsFromStrongestRung | agent/crawler/parser.py:484-529 | an entity has rung, container and context of the first candidate of its address on the strongest rung |
| Binding.OwnerIsNearest | agent/crawler/parser.py:531-561 | a phone goes to the first phoneless entity beside it, else to the first phoneless one, else nowhere |
| Binding.TagsOf | agent/crawler/parser.py:514-529 | role addresses are an organisation's; others a person's, of an office exactly when the domain ends with a configured suffix |
| Binding.FlattenEmit | agent/crawler/parser.py:870-898 | emits the first entity of each e-mail |
| Binding.EachEmailOnce | agent/crawler/parser.py:870-898 | each given e-mail is emitted exactly once and none is dropped |
| Binding.BoundAreAllEmitted | agent/crawler/parser.py:870-898 | after binding every entity with an address is emitted |
| AddressCut.TruncateAtKnownSuffix | agent/crawler/parser.py:319-342 | cuts at the end of the shortest domain prefix containing a suffix |
| AddressCut.EarliestEnd | agent/crawler/parser.py:333-339 | the least end of first occurrences is that shortest prefix |
| AddressCut.CutIsUnique | agent/crawler/parser.py:319-342 | the promise determines the result |
| AddressCut.UncutIff | agent/crawler/parser.py:340-341 | unchanged exactly when no proper prefix of the domain contains a suffix |
| AddressCut.CutIsIdempotent | agent/crawler/parser.py:319-342 | a second cut changes nothing, for every suffix list |
| AddressCut.LocalPartUntouched | agent/crawler/parser.py:331-342 | the local part is kept; a text without an at-sign gains one when cut |
| AddressCut.TextGainsAt | agent/crawler/parser.py:331-342 | a text without an at-sign and the cut that puts one in front |

## Left out

- Outreach.OutreachDb.ClaimNextQueuedEmail: the conditional update and its five tries are one atomic step.
- Dispatch.DeliveriesBounded: rows exist from the start of a run; creating drafts and the blacklist are not modelled, and a change of campaign status is a worker leaving or a cancel.
- Dispatch.DailyLimitHolds: a limit of zero or none means no limit, as in the code, and is outside the bound.
- DispatchLoop.RunCampaignDispatch: a single loop with no outside writer and no cooldown running out while it runs; reading the campaign's status between passes.
- Outreach.OutreachDb.HandleSendError: the stored error text; the blacklist is kept by row, not by address and domain.
- Chains.ChainsBounded: within one run; a page in flight at a checkpoint is processed again after a resume.
- Engine.CrawlerEngine.EnqueueLinks: the list a new chain would start with is created up front; metrics such as max_depth_seen and session counters are omitted.
- Engine.CrawlerEngine.SaveCheckpoint: taken between steps, not in another thread; the saved max_depth_seen and session_visited_count, and encoding as JSON, are omitted.
- LeadDb.LeadDb.SaveLead: the row another session inserts on a collision appears only as that session's own step; attribution and the host-name test of the department are inputs.
- LeadDb.LeadDb.BulkUpsertManualLeads: the other session's row on a collision, and the texts of the reasons for skipping.
- EndToEnd.DeliveredOnceInEffect: one outbox file per job; deletion of leads is not modelled.
- Outbox.CloudApiClient.DrainBeforeFinish: one flusher alone; the flush loop that runs at the same time is in `Delivery.FlushesAreBounded`.
- Outbox.CloudApiClient.FlushKind: the second post after a 401 appears in Delivery as another request of the same batch; sleeps are omitted.
- Dedupe.MergeMigration.DedupeLeads: the constraint change after the merge; scores are not recomputed by the migration and are no part of it.
- Catalog.DomainCatalog.ReplaceCatalog: category and organisation lookups; ids are consecutive from a counter and never reused.
- Binding.BindChannels: the context of a candidate is one value, kept or not as a whole; the rung recorded for an attached phone; resolving bracketed candidates and scoring the band belong to later stages.
- Frontier save, load and clear in the outbox file, backpressure and the visited-URL history: single-row writes.
- The poll loop's registry of one dispatch worker per campaign: the protocol allows any number of workers on any campaigns.
- HTTP, SMTP, Playwright, HTML parsing, regular expressions, encryption, tokens and passwords.
- Lead listing, export, filters, dashboards, configuration and the other migrations.
