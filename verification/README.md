# Agentis backend: a verified model

Agentis runs LLM agents for its users: a user submits a goal, a worker executes a ReAct graph
over it, every step is logged and streamed, tokens are charged, and an authentication layer with
rotating refresh tokens and two throttles stands in front. This project models the six state
machines behind that and proves what holds in every reachable state and over every run.

`dafny verify dfyconfig.toml` checks everything.

## How it is modelled

* A table is a sequence or map of rows, Redis is a map whose keys carry an expiry, the clock is an
  input that does not go backwards, and the answers of the language model, the tools and the
  tokenizer are arbitrary inputs. A run is a sequence of such inputs folded over the state, so a
  lemma about `Run(...)` speaks of every run.
* What the source updates in place is a class here (`AuthService`, `RateLimiter`, `EventLog`,
  `TaskStore`, `StateGraph`), and its loops are loops. Each method is proved against a
  specification function, and the lemmas are about those functions.

| file | part of the backend |
|---|---|
| `CursorCodec.dfy`, `Base64Url.dfy`, `Digits.dfy` | the pagination cursor |
| `Calendar.dfy`, `Keyset.dfy`, `Paging.dfy`, `Sorting.dfy` | listing tasks page by page |
| `TokenRotation.dfy`, `LoginThrottle.dfy`, `Auth.dfy`; overlapping requests: `RefreshRace.dfy`, `SessionRace.dfy`, `LoginRace.dfy` | the authentication endpoints |
| `RateLimiter.dfy` | the sliding window over a sorted set |
| `Messages.dfy`, `Context.dfy`, `AgentGraph.dfy` | messages, summarising, nodes and edges |
| `AgentTermination.dfy`, `AgentHistory.dfy`, `AgentScratchpad.dfy` | properties of every run of the graph |
| `StepLog.dfy`, `StepLogResume.dfy` | emitters, replay and streams, resuming clients |
| `TaskStatus.dfy`, `TaskLifecycle.dfy`, `TaskRunner.dfy` | status, concurrency cap, accounting |
| `AgentWitness.dfy`, `StepLogWitness.dfy`, `TaskWitnesses.dfy`, `CapWitness.dfy` | runs that exhibit what does not hold |
| `Common.dfy` | `Option`, `Result`, sizes of sets |

### Assumptions

* `add_messages` is a library's reducer: a message whose id is present replaces that message in
  place, any other is appended, and a message without an id gets one never used before. A stored
  model reply has no id or one that is not in the history (`FreshReplies`).
* The graph library keeps what a node returns under the keys `AgentState` declares and drops the
  rest.
* Token hashes stand for tokens. A generated hash or id may collide; the unique column then
  rejects the commit.
* An authentication request is one atomic step in `TokenRotation`, `LoginThrottle` and `Auth`. Where
  requests overlap (`RefreshRace`, `SessionRace`, `LoginRace`), a refresh is a look-up and a commit,
  and a login attempt a check of the counter and an answer that moves it; a logout and the
  revocation after a replay take effect at their commit, and INCR and EXPIRE come together.
* A task action is one commit, or one read that a later commit relies on: creating and cancelling
  are split into check and commit, charging into read and write, emitting into read, insert and
  publish, and anything may happen in between.
* Redis and the application read one clock, a key is gone once the clock is past its expiry, and the
  rate limiter's pipelines are executed in the order of the instants they carry.
  Pub/sub delivers what is published on a channel, in order, to whoever is subscribed.
* The database returns `created_at` in UTC, and the driver takes a naive datetime to be in the
  server's own zone, which is an arbitrary function here.
* At most one runner works on a task. The worker queue acknowledges late
  (app/worker/celery_app.py), so a redelivered job could start a second one; that is not modelled.
  Cancelling does not stop it: what `revoke` is given is the
  task's id, not the worker job's. A runner that is stopped, dies, or raises outside its
  `try` block is the operation `Kill`.

### Where the code differs from what one would expect

* Summarising shortens one prompt and never the stored history (`MergeSummarized`,
  `OnceOverBudgetAlways`), and can cut a tool result from its call (`PromptOrphans`; a run in
  which it does is `OrphanedResults`).
* The iteration test after reflect never decides (`ReflectDecides`).
* The report node returns the summary under `result_summary`, which `AgentState` does not declare,
  so the runner always finds the empty string and stores nothing in short-term memory
  (`ResultIsEmpty`).
* A cancel during a live run can be undone (`CancelUndone`); it is final exactly when no runner is
  live on the task (`CancelIsFinalIff`).
* A cancel request that has read a running task can commit after the task completed, and leaves it
  cancelled with a completed task's tokens (`CompletedThenCancelled`, `FinalStates`).
* A crash between the two final commits charges a task's steps twice (`CrashChargesAgain`), and
  of two concurrent charges one can be lost (`ChargeLost`); `CounterExplained` says what the
  counter is then.
* A step can be missed by a stream, or delivered twice (`StepMissed`, `StepTwice`; which ones is
  `DeliveredTimes`), and a replayed step can carry another event type than the live one
  (`ReplayTypeAgreesIff`).
* Two refreshes that overlap give a token two successors (`RaceHappens`, `TwoSuccessorsIffRaced`),
  and a user more live tokens than logins (`LiveTokensCounted`).
* A replay and a logout end the sessions they are meant to end exactly when no refresh of the user,
  or of the token, is under way; one that is still commits (`ReplayEndsSessionsIff`,
  `LogoutIsFinalIff`, `SurvivesReplayRun`, `SurvivesLogout`).
* Login attempts that overlap can fail more than five times in 900 seconds, four plus as many as
  overlap, and those let through before a lock can lift or prolong it (`FailuresWithOpen`,
  `BurstFails`, `LockHoldsIff`).
* A user can have more than five active tasks, through create requests that overlap and through
  revived tasks (`CapExceeded`, `RevivedExceedsCap`).
* A client that resumes with the last id it received, as browsers do, can lose a step for good
  (`ResumeCompleteIff`).
* `max_iterations` has no lower bound: below -1 no run fits its recursion limit
  (`RequestedRunFits`).
* Token budgets are documented as checked before each model call; no code calls `check_budgets`,
  and nothing is claimed about them.

## Model

| member | source | states |
|---|---|---|
| `Base64Url.RoundTrip` | app/repositories/task.py:15-19 | decoding what base64url (RFC 4648, section 5) encoded gives back the octets, for every octet string |
| `CursorCodec.IsoRoundTrip` | app/repositories/task.py:14-21 | every valid datetime, naive or with any offset to the microsecond, is read back from its ISO text, which contains no separator |
| `CursorCodec.UuidRoundTrip` | app/repositories/task.py:14-21 | every UUID is read back from its hyphenated text, which contains no separator |
| `CursorCodec.CursorRoundTrip` | app/repositories/task.py:13-21 | decoding an encoded cursor gives exactly the timestamp and UUID, and no cursor is the empty string that means "none" |
| `CursorCodec.CursorInjective` | app/repositories/task.py:13-15 | two rows have the same cursor if and only if timestamp and UUID agree |
| `CursorCodec.CursorMeaning` | app/repositories/task.py:13-15 | a cursor is the base64url text of ISO text, vertical bar and UUID, octet by octet |
| `CursorCodec.IsoMeaning` | app/repositories/task.py:14 | the ISO text has the date, T, the time, a six-digit fraction exactly when the microseconds are not zero, and the offset; `OffsetMeaning` and `SecondsMeaning` spell the offset, `PadMeaning` the digits |
| `CursorCodec.UuidMeaning` | app/repositories/task.py:14 | the UUID is 32 hexadecimal digits with hyphens after the 8th, 12th, 16th and 20th |
| `Base64Url.EncodeThree` | app/repositories/task.py:15 | three octets are one 24-bit number, written as four base-64 digits of the URL-safe alphabet, then the rest; `EncodeTwo` and `EncodeOne` say what a shorter end becomes |
| `Calendar.MomentOrder` | app/repositories/task.py:78-82 | at equal offsets instants compare exactly as year, month, day, hour, minute, second and microsecond do |
| `Calendar.SameDay` | app/repositories/task.py:69-72 | on one date instants differ by the difference of the times of day in microseconds |
| `Calendar.DayLater` | app/repositories/task.py:69-72 | the same time on the next calendar day, over ends of months, years and leap years, is 86,400 seconds later |
| `Calendar.OffsetSubtracts` | app/repositories/task.py:69-72 | a datetime with an offset, or a naive one in the server's zone, denotes the UTC reading less that offset |
| `Keyset.SelectFromRow` | app/repositories/task.py:76-83 | the rows strictly below the k-th selected row's key are the selection without its first k rows |
| `Paging.FieldConditions` | app/repositories/task.py:60-68 | a row passes the conditions collected exactly when it matches owner, deletion, status and language filters, empty filters being none |
| `Paging.RangeConditions` | app/repositories/task.py:69-79 | the same for search and for date bounds at any offset or none, in terms of the instants of the row and the bounds, and the row lies strictly past the cursor's (created_at, id) |
| `Paging.Truncate` | app/repositories/task.py:83-91 | fetching one row too many and cutting it gives the first `limit` rows and a cursor exactly when there are more |
| `Paging.ListTasks` | app/repositories/task.py:55-91 | the whole call, malformed cursors included, returns the page the specification selects |
| `Paging.ListingMeaning` | app/repositories/task.py:55-91 | in terms of the rows' fields: at most `limit` eligible rows, newest created_at first and higher id first among equals; all of them when there is no next cursor, and otherwise exactly `limit`, every other eligible row being older than the last, which the cursor names |
| `Paging.SessionPage` | app/repositories/task.py:76-91 | a client that passes cursors back gets, at each fetch, the page below the key of the last row it saw |
| `Paging.OneQuery` | app/repositories/task.py:81-83 | the unlimited query holds exactly the rows that pass owner, deletion, status, language, date and search filters, each once, strictly descending in the fields of created_at and then id |
| `Paging.PagesEqualOneQuery` | app/repositories/task.py:76-91 | on a fixed table page i is rows i*limit to (i+1)*limit of that query, and the session is over exactly when all are covered |
| `Paging.FollowingCursors` | app/repositories/task.py:76-91 | following cursors to the end takes max(1, ceil(n/limit)) pages, all but the last full, and concatenates to the one query |
| `Paging.NoRowTwice` | app/repositories/task.py:76-91 | whatever is inserted, deleted or changed between fetches, no row is returned twice while keys stay put |
| `Paging.MatchingRowOnce` | app/repositories/task.py:76-91 | a row that matches at every fetch is returned exactly once by a finished session, as it is at that fetch |
| `TokenRotation.RotationChains` | app/routers/auth.py:198-243 | over every run tokens form chains: one successor at most, a replaced token is revoked and of the same user, only a chain's newest token can be live |
| `TokenRotation.RefreshesOnce` | app/routers/auth.py:226-243 | no token is exchanged twice, whatever atomic requests come in between |
| `TokenRotation.LogoutIsFinal` | app/routers/auth.py:259-268 | with atomic requests a token given to logout is never exchanged afterwards |
| `SessionRace.LogoutIsFinalIff` | app/routers/auth.py:202-268 | with look-up and commit apart, a token given to logout is exchanged in some continuation if and only if a refresh of it was under way |
| `SessionRace.RevokedIsFinalIff` | app/routers/auth.py:202-243 | the same of a token however it was revoked |
| `SessionRace.SurvivesLogout` | app/routers/auth.py:202-268 | a run in which the user logs out between look-up and commit and has a live token all the same |
| `TokenRotation.TokensLastThirtyDays` | app/routers/auth.py:226-242 | a token is exchanged at most 2,592,000 seconds after it was issued |
| `TokenRotation.RefreshSucceeds` | app/routers/auth.py:198-243 | a refresh succeeds if and only if the token is stored, live and not expired, and the generated hash is new |
| `TokenRotation.LiveTokensBounded` | app/routers/auth.py:47-250 | with atomic requests a user's unrevoked tokens never outnumber the user's logins plus registrations |
| `SessionRace.LiveTokensCounted` | app/routers/auth.py:47-250 | with look-up and commit apart they never outnumber these plus the refreshes that committed after their token had been revoked |
| `TokenRotation.ReplayEndsOldSessions` | app/routers/auth.py:213-243 | with atomic requests, in every continuation after a replay a successful refresh of that user stands on a chain begun by a later login or registration |
| `SessionRace.ReplayEndsSessionsIff` | app/routers/auth.py:202-243 | with look-up and commit apart, some continuation of a replay has a live token of the user on a chain begun before it if and only if a refresh of the user was under way |
| `SessionRace.SurvivesReplayRun` | app/routers/auth.py:202-243 | a run in which such a token exists |
| `RefreshRace.TwoSuccessorsIffRaced` | app/routers/auth.py:202-243 | with look-up and commit apart, a token gets two successors if and only if two refreshes both read it before either committed |
| `RefreshRace.RaceHappens` | app/routers/auth.py:202-243 | a run after which one token has two live successors |
| `LoginThrottle.FailuresPerWindow` | app/routers/auth.py:94-165 | with atomic attempts any 900-second window without a successful login holds at most five failed logins of the e-mail |
| `LoginRace.FailuresWithOpen` | app/routers/auth.py:138-165 | with check and answer apart, its failures together with the attempts still unanswered are at most four plus the most ever unanswered at once |
| `LoginRace.BurstFails` | app/routers/auth.py:138-165 | for every p a run with p attempts overlapping has 4 + p failures at one instant, so the bound is exact |
| `LoginRace.WholeAttempt` | app/routers/auth.py:131-165 | a check with its answer right behind it is an atomic attempt |
| `LoginThrottle.CountIsChain` | app/routers/auth.py:94-128 | the counter read at any instant is the length of the chain of failures since the last success, each at most 900 seconds before the next and the last before that instant |
| `LoginThrottle.FiveFailuresLock` | app/routers/auth.py:94-118 | five failures within 900 seconds without a success lock the e-mail until 900 seconds after the last of them |
| `LoginThrottle.FifthFailureLocks` | app/routers/auth.py:110-118 | the failure that makes a chain of five locks the e-mail for 900 seconds from then on |
| `LoginThrottle.LockLastsExactly` | app/routers/auth.py:94-107 | with atomic attempts nothing lifts or prolongs the lock while it lasts: an attempt is refused unseen exactly up to its end |
| `LoginRace.LockHoldsIff` | app/routers/auth.py:94-165 | with check and answer apart, nothing that happens while the lock lasts lifts or prolongs it if and only if no attempt was unanswered when it began |
| `LoginThrottle.LimitedIffChain` | app/routers/auth.py:94-128 | an attempt is refused if and only if such a chain of at least five failures leads up to it |
| `RateLimiter.StoredIsHistory` | app/auth/rate_limiter.py:28-32 | the pruned, expiring sorted set holds exactly the distinct request instants of the last hour of the full history |
| `RateLimiter.RefinesHistory` | app/auth/rate_limiter.py:23-41 | a request is accepted if and only if the full history of its window has at most `limit` distinct instants |
| `RateLimiter.AcceptedPerWindow` | app/auth/rate_limiter.py:23-41 | every window (t, t+3600], wherever it starts, holds at most `limit` accepted instants |
| `RateLimiter.PoliteClientAccepted` | app/auth/rate_limiter.py:37-41 | a client within the limit over the last hour is not refused |
| `RateLimiter.RateLimiter.CheckRateLimit` | app/auth/rate_limiter.py:13-51 | the four commands in order have the specified effect and verdict, on missing and expired keys too |
| `Auth.AuthService.Register` | app/routers/auth.py:47-91 | which registrations succeed, and the account and token they store; others change nothing |
| `Auth.AuthService.Login` | app/routers/auth.py:131-182 | a token is issued only for the stored password of an account that is not deleted; locked, wrong or missing and deleted have exactly their own answers, a wrong one adds a failure for 900 seconds and a login clears them; this is one attempt of the throttle and one grant |
| `Auth.AuthService.Refresh` | app/routers/auth.py:185-250 | the answer and the token rows of every case, spelled out: unknown, replayed (all the user's live tokens revoked), expired, colliding, rotated; this is one step of the rotation |
| `Auth.AuthService.Logout` | app/routers/auth.py:253-270 | the presented token is revoked if it exists, every other row stays as it is, and the answer is always the same |
| `Messages.AddAllStored` | app/orchestrator/state.py:44 | merging stored messages again changes nothing |
| `Context.CountMessageTokens` | app/orchestrator/context.py:24-29 | the loop returns the sum of text costs plus four per message |
| `Context.SummarizeConserves` | app/orchestrator/context.py:55-76 | new cost plus freed equals old cost plus the summary's, and tokens are freed exactly from four messages on |
| `Context.SummarizeKeepsRecent` | app/orchestrator/context.py:55-76 | from four messages on the list becomes the headed summary and the newest ceil(n/2) messages unchanged; shorter lists stay |
| `Context.TotalMeaning` | app/orchestrator/context.py:18-29 | each message adds its tokens, none for an empty text, and four |
| `Context.CutSeparatesIffTool` | app/orchestrator/context.py:60-61 | a cut separates a tool message from its call if and only if the first message kept is a tool message |
| `AgentGraph.BuildGraph` | app/orchestrator/graph.py:11-29 | the calls that assemble the graph produce the wiring all theorems are about |
| `AgentGraph.RunTools` | app/orchestrator/nodes.py:104-128 | one tool message per call, in call order, with its call's id, and failures raised by the unknown and failed ones |
| `AgentGraph.ThinkRoutes` | app/orchestrator/nodes.py:182-190 | think leads to act if and only if the iteration limit is not reached, fewer than ten calls failed and the reply asks for a tool; else to report |
| `AgentTermination.Terminates` | app/orchestrator/nodes.py:182-198 | for every behaviour of model and tools the graph has ended after max(3, 4*max_iterations-1) node executions, and never before the third |
| `AgentTermination.BoundIsExact` | app/orchestrator/nodes.py:182-198 | for every limit some run needs exactly that many |
| `AgentTermination.RecursionLimitSuffices` | app/orchestrator/runner.py:75-76 | the recursion limit is enough, with one execution to spare, for max_iterations >= -1, and for no run below |
| `AgentTermination.RequestedRunFits` | app/routers/tasks.py:47-48 | the same in terms of the request: absent, zero and clamped values fit, values under -1 cannot |
| `AgentTermination.ReflectDecides` | app/orchestrator/nodes.py:193-198 | after reflect the model's decision alone chooses between report and think |
| `AgentTermination.FailuresAreFailedCalls` | app/orchestrator/nodes.py:105-128 | at every reachable state `failures` counts the failed and unknown tool calls so far |
| `AgentTermination.FailuresBounded` | app/orchestrator/nodes.py:105-128 | at every moment the count is below the limit plus the calls of the last round act completed, and zero before the first |
| `AgentHistory.MergeSummarized` | app/orchestrator/nodes.py:80-94 | returning summary, recent half and reply stores the whole old history, the summary and the reply |
| `AgentHistory.ThinkAppends` | app/orchestrator/nodes.py:75-94 | think only appends: the reply, preceded by a summary exactly when one was made |
| `AgentHistory.HistoryOnlyGrows` | app/orchestrator/nodes.py:48-179 | at any two moments of a run the earlier history is a prefix of the later one |
| `AgentHistory.HistoryInvariant` | app/orchestrator/nodes.py:48-179 | over every run, summarising or not: distinct ids, nothing lost, each tool message answers a call at its place in the round that an earlier reply opened |
| `AgentHistory.NodesAppend` | app/orchestrator/nodes.py:48-179 | at any moment of a run: plan appends prompt and goal; think its reply, preceded by the headed summary exactly when at least four messages are over the budget; act the answer or error text of each call, in call order; report its reply; observe and reflect nothing |
| `AgentHistory.EndsWithReport` | app/orchestrator/nodes.py:167-179 | a run is done exactly at the end node, and then the report node's reply is the last stored message |
| `AgentGraph.ResultIsEmpty` | app/orchestrator/runner.py:90 | the summary the runner takes from the final state is the empty string in every run |
| `AgentHistory.ObserveCopiesRound` | app/orchestrator/nodes.py:131-136 | observe copies all outputs of its round up to five, else the last five, and with four or more no older one |
| `AgentHistory.CopiedAtMostThrice` | app/orchestrator/nodes.py:131-136 | what the history holds at one observe is outside the window at the third observe after it |
| `AgentHistory.OnceOverBudgetAlways` | app/orchestrator/nodes.py:77-93 | once the history is over the context budget every later think call summarises again |
| `AgentHistory.PromptOrphans` | app/orchestrator/context.py:60-61 | in every run the recent half shows a tool result without its call if and only if it starts with one |
| `AgentWitness.OrphanedResults` | app/orchestrator/nodes.py:78-87 | a run whose second think call is over budget and has tool results in its prompt without their call |
| `AgentScratchpad.ObserveMeaning` | app/orchestrator/nodes.py:131-136 | the new scratchpad is the one text that is the old scratchpad and, each on a line of its own, the tool outputs among the last five messages, without the white space at the two ends |
| `AgentScratchpad.ToolOutputStays` | app/orchestrator/nodes.py:131-136 | every piece of such an output that does not begin or end with white space is in the scratchpad at every later moment of the run |
| `AgentScratchpad.OutputReachesScratchpad` | app/orchestrator/nodes.py:97-136 | in every run what a tool answers to one of the last five calls of a round gets into the scratchpad with the round's observe and stays |
| `StepLog.NumbersAreGapless` | app/orchestrator/events.py:38-49 | for every interleaving of any number of emitters the stored numbers are 1 to n |
| `StepLog.InsertSucceedsIff` | app/orchestrator/events.py:38-49 | an insert succeeds if and only if nobody inserted since the number was read, and stores and reports that number |
| `StepLog.ReplayIsSuffix` | app/orchestrator/events.py:59-73 | replay returns exactly the ascending rows after the given number |
| `StepLog.DeliversStoredSteps` | app/routers/tasks.py:131-161 | every event a stream delivers has the id and data of a stored step, and its replayed part is the suffix after Last-Event-ID |
| `StepLog.ReconnectsLoseNothing` | app/routers/tasks.py:127-134 | any chain of reconnects, the first without Last-Event-ID and each other sending the last replayed id, adds up to steps 1 to n without gap or repeat |
| `StepLogResume.ResumeCompleteIff` | app/routers/tasks.py:127-161 | with one emitter, a client that resumes with the last id it was given, replayed or live, gets every step up to its last replay if and only if no earlier stream began its live part behind its replay |
| `StepLog.HeaderRoundTrip` | app/routers/tasks.py:127-128 | the id of a frame, sent back as Last-Event-ID, is understood as that number |
| `StepLog.NoHeaderReplaysAll` | app/routers/tasks.py:127-134 | without Last-Event-ID, or with one that is empty or not all digits, the replay is the whole log |
| `StepLog.EventNames` | app/orchestrator/events.py:17-27 | the event name of each step type, and which events close a stream: a report's, or one emitted as completed or failed |
| `StepLog.ClosingIsLast` | app/routers/tasks.py:146-159 | in every run nothing a stream received live comes after a closing event, and a stream that received one has ended |
| `StepLog.LiveContinuesIff` | app/routers/tasks.py:134-161 | with one emitter a stream is consecutive if and only if nothing live came yet or what had been published at subscription is exactly what the client had got |
| `StepLog.QuietSubscription` | app/routers/tasks.py:131-161 | with one emitter it is consecutive if nothing was committed and unpublished at the replay and nothing is published between replay and subscription |
| `StepLog.DeliveredTimes` | app/routers/tasks.py:131-161 | for any interleaving, how often a published step reaches a stream: once by replay if it was a row after Last-Event-ID then, once live if published after the subscription; so exactly which steps are missed or seen twice |
| `StepLog.AbandonedNeverPublished` | app/orchestrator/events.py:49-57 | a step whose emitter stops between insert and publish is never published in any continuation |
| `StepLogWitness.StepMissed` | app/routers/tasks.py:134-148 | a run in which step 1 is published between replay and subscription and the stream begins with step 2 |
| `StepLogWitness.StepTwice` | app/orchestrator/events.py:49-56 | a run in which a step committed before the replay and published after the subscription comes twice |
| `StepLog.EventLog.Emit` | app/orchestrator/events.py:35-57 | an uninterrupted emit appends the next number, publishes it and returns it, and is the three protocol steps in a row |
| `StepLog.EventLog.EmitFailedCancelled` | app/orchestrator/events.py:75-81 | the event of a cancel closes every live stream |
| `StepLog.EventLog.ReplayAfter` | app/orchestrator/events.py:59-73 | replay as the suffix, as events |
| `StepLog.EventLog.EventGenerator` | app/routers/tasks.py:131-161 | a stream hands over the replay, then, unless terminal, what arrives up to and including the closing event; heartbeats add nothing |
| `TaskLifecycle.TerminalIffCompletedAt` | app/orchestrator/runner.py:22-31 | in every reachable state a task is terminal exactly when completed_at is set, except a cancelled one a live runner set going again |
| `TaskLifecycle.RevivedOnlyByRunner` | app/orchestrator/runner.py:53-111 | a step takes a task out of cancelled if and only if it is one of a live runner's four status commits, and makes a terminal task active if and only if it is one of the first two on a cancelled one |
| `TaskLifecycle.RaiseIsHandled` | app/orchestrator/runner.py:53-113 | an exception leads to report and fail exactly inside the try block, which begins after planning is set, and itself changes nothing of the task |
| `TaskLifecycle.CheckOpensIff` | app/routers/tasks.py:94-103 | a cancel request gets past its check if and only if it comes from the owner or an administrator and the task is active; any other leaves no trace |
| `TaskLifecycle.ClampMeaning` | app/routers/tasks.py:47-48 | absent and zero give 30 iterations, more than 50 give 50, anything else is stored as requested |
| `TaskLifecycle.CancelIsFinalIff` | app/orchestrator/runner.py:22-111 | a cancelled task is cancelled in every continuation if and only if no runner is live on it |
| `TaskWitnesses.CancelUndone` | app/orchestrator/runner.py:41-53 | a run in which a cancelled task is planning again |
| `TaskLifecycle.FinalStates` | app/routers/tasks.py:95-104 | completed and failed are left if and only if a cancel request checked earlier commits, and then for cancelled |
| `TaskLifecycle.FinishedIsFinalIff` | app/routers/tasks.py:95-104 | a completed or failed task is the same in every continuation if and only if no cancel request that has read it is still to commit |
| `TaskLifecycle.AtomicFinality` | app/repositories/task.py:94-107 | if nothing comes between check and commit of a cancel, a completed or failed task never changes again |
| `TaskWitnesses.CompletedThenCancelled` | app/routers/tasks.py:95-104 | a run in which a completed task becomes cancelled and keeps its 7 tokens |
| `TaskLifecycle.RunsEndTerminal` | app/orchestrator/runner.py:43-111 | a run that is not killed ends completed or failed, cancelled meanwhile or not |
| `TaskLifecycle.CompletedTotal` | app/orchestrator/runner.py:91-100 | a task's total is zero or the sum of all its persisted steps, earlier attempts included: the sum if completed, zero while active or if failed |
| `TaskLifecycle.ActiveTasksBounded` | app/routers/tasks.py:39-54 | active tasks never exceed four plus the most creates ever pending at once plus the revived tasks |
| `CapWitness.CapExceeded` | app/routers/tasks.py:39-54 | for every p a run with p creates pending at once has 4 + p active tasks, so the bound is attained |
| `CapWitness.RevivedExceedsCap` | app/routers/tasks.py:39-54 | a run with creates one at a time and six active tasks, one of them revived |
| `TaskLifecycle.FiveActiveTasks` | app/routers/tasks.py:39-54 | with creates one at a time they never exceed five plus the revived tasks |
| `TaskLifecycle.OrderlyRuns` | app/routers/tasks.py:39-54 | if no cancel commits while a runner is starting (one may while the graph is executed), terminal is exactly completed_at set, and with creates one at a time active tasks never exceed five |
| `TaskLifecycle.AlwaysAccounted` | app/orchestrator/budget.py:33-37 | counter plus losses to stale writes equals its start plus everything charged, in every reachable state |
| `TaskLifecycle.ChargedExactlyOnce` | app/orchestrator/runner.py:91-100 | counter plus losses equals its start plus the sum of the tasks' totals plus what was charged by runs between their two final commits |
| `TaskLifecycle.CounterIsSumOfTotals` | app/orchestrator/runner.py:91-100 | without such runs the counter is its start plus the sum of the totals if and only if nothing was lost |
| `TaskLifecycle.AtomicNeverStale` | app/orchestrator/budget.py:33-37 | if nothing comes between reading and writing the counter, nothing is ever lost |
| `TaskLifecycle.CounterExplained` | app/orchestrator/runner.py:91-100 | whenever no run of the user is between its final commits, the counter is its start plus the totals plus the tokens of runs that crashed between them less what stale writes took; so it is exact if and only if the last two are equal |
| `TaskLifecycle.CounterExact` | app/orchestrator/runner.py:91-100 | with atomic charges it is too high by exactly the tokens of those crashed runs, so it is exact if and only if there are none |
| `TaskRunner.ScriptInWorld` | app/orchestrator/runner.py:34-116 | from any state, an uninterrupted run ends its task completed or failed with the stated fields and steps, adds its tokens once to its user's counter, and touches no other task or counter |
| `TaskRunner.CancelInWorld` | app/routers/tasks.py:90-116 | from any state, an uninterrupted cancel request changes nothing unless the caller may see the task and it is active; then it cancels the task, reports one step and touches nothing else |
| `TaskRunner.CreateInWorld` | app/routers/tasks.py:38-57 | from any state, an uninterrupted create request adds one submitted task, or nothing if the user has five active tasks |
| `TaskWitnesses.CrashChargesAgain` | app/orchestrator/runner.py:93-100 | a run with a crash after which 16 tokens are charged for a task whose total is 9 |
| `TaskWitnesses.ChargeLost` | app/orchestrator/budget.py:33-37 | a run in which two tasks complete with 5 and 7 tokens and the counter has moved by 7 |
| `TaskRunner.TaskStore.CountRunningTasks` | app/repositories/task.py:46-52 | the number of the user's tasks that are not terminal |
| `TaskRunner.TaskStore.CreateTask` | app/routers/tasks.py:38-57 | refused with no effect from five active tasks on, else one submitted task with the clamped iteration limit |
| `TaskRunner.TaskStore.CancelRequest` | app/routers/tasks.py:90-116 | the answer in each case, not found for a caller who is neither the owner nor an administrator; exactly when something is cancelled the task changes and one step is reported |
| `TaskRunner.TaskStore.SumTaskTokens` | app/orchestrator/runner.py:126-132 | the sum over the persisted steps |
| `TaskRunner.TaskStore.RunTask` | app/orchestrator/runner.py:34-116 | the whole run on the tables has the result of the state machine, changes no other task and charges once |

## Left out

- DecodeCursor: reads the forms `isoformat` and `str(UUID)` write; Python's parsers accept more (other ISO forms, braces and `urn:` around a UUID, foreign characters inside base64).
- RangeConditions: a bound or cursor whose UTC instant lies outside the years 1 to 9999, where the driver raises.
- FromOctets: UTF-8 beyond single octets, because no cursor contains any.
- ListTasks: full-text search is an arbitrary predicate on the goal, and the limit is at least 1, as the endpoint checks.
- HistoryInvariant: requires that a checkpoint of an earlier run left a history with distinct ids and answered calls, which every history of a run has.
- CheckRateLimit: instants are exact reals; two requests at the same instant are one member of the sorted set, as in the source.
- RequestedRunFits: node executions are counted; whether the library raises at the limit or one past it makes no difference, as one is to spare.
- HeaderRoundTrip: `isdigit` is taken as ASCII digits; on other digit characters `int` may raise.
- EventGenerator: polling results are a finite sequence that ends when the client disconnects, and event data is text.
- LiveContinuesIff: one emitter that publishes what it commits; for any number of emitters `DeliveredTimes` says what arrives, and live order is the order of publishing.
- ScriptInWorld: BudgetExceeded and the partial report, because nothing raises that exception.
- RefreshesOnce: holds for atomic requests; for overlapping ones see `TwoSuccessorsIffRaced`.
- LogoutIsFinal: holds for atomic requests; for overlapping ones see `LogoutIsFinalIff`.
- ReplayEndsOldSessions: holds for atomic requests; for overlapping ones see `ReplayEndsSessionsIff`.
- LiveTokensBounded: holds for atomic requests; for overlapping ones see `LiveTokensCounted`.
- FailuresPerWindow: holds for atomic attempts; for overlapping ones see `FailuresWithOpen`.
- LockLastsExactly: holds for atomic attempts; for overlapping ones see `LockHoldsIff`.
- FinalStates: a database commit that takes effect and raises all the same.
- Accounts removed while their tokens are in use, access tokens, API keys, profile endpoints, password hashing.
- JSON extraction, the plan and its subtasks, confidence, prompts, tool output truncation and the tools themselves: inputs of the runs.
- `tasks.deleted_at` in the lifecycle, because no code sets it; listing does model it.
- `check_budgets`: two comparisons that nothing calls.
- Short-term memory, sandbox, worker queue, HTTP, logging, tracing, configuration and migrations.
- Two runners on one task at a time.
