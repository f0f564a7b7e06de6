# Verified models of the opencode agent SDK

The SDK drives an `opencode acp` subprocess over the Agent Client Protocol: it
routes the agent's `session/update` notifications to sessions, retries failed
queries, accounts for cost, extracts structured output from replies, and serves
the agent's file requests. This project models the parts whose correctness is
not visible from any single function and proves what they keep.

| file | what it models |
|---|---|
| `routing_table.dfy` | the two maps under `sessionsMu`, as transformers and as a function of their own history |
| `session_delivery.dfy` | one session's channel, `closed` flag, drop counter and subscriptions |
| `client_routing.dfy` | the client's routing state, changed in place |
| `routing_protocol.dfy` | all of it as a step machine, one step per critical section, any number of threads |
| `routing_conservation.dfy` | where every notification is, after any run |
| `client_lifecycle.dfy` | who ends the client: the first `Close`, or a crash watcher past its check |
| `teardown.dfy` | which sessions the client can still reach and close |
| `delivery_order.dfy` | the order in which a session's channel accepts notifications |
| `lock_order.dfy` | the SDK's lock operations as programs, and why no schedule of them sticks |
| `json_scanner.dfy`, `json_round_trip.dfy`, `fenced_block.dfy` | extraction of JSON from prose, against a printer for RFC 8259 texts |
| `error_classification.dfy`, `retry_policy.dfy`, `resilient_query.dfy` | what is retried, after how long, and what a whole run does |
| `cost_tracker.dfy`, `budget_tracker.dfy` | cost records, their aggregate, and the budget verdict |
| `load_history.dfy` | replayed chunks coalesced into messages |
| `line_window.dfy`, `path_containment.dfy` | line windows of a file, and lexical containment of a write target |
| `max_turns.dfy` | the turn counter and its single cancellation |
| `build_env.dfy` | the environment overlay through an index |
| `strings.dfy`, `wrappers.dfy` | the parts of Go's `strings`, pointers and 64-bit `int` that the above rely on |

Code that updates state in place (sessions, client, trackers, the turn counter,
the scanner, the retry loop, the overlay) is a class or a method with loops,
proved against specification functions; the laws are lemmas about those
functions. The concurrent behaviour is a state machine whose steps are the
critical sections, built from the same transformers that the in-place methods
are proved against.

## What the code does not do as its comments or names suggest

- **Flush order.** `registerSession` is commented as preserving order because it
  flushes before returning (`client_impl.go:883-886`). It releases `sessionsMu`
  first, so a direct delivery can overtake the flush
  (`DeliveryOrder.FlushCanBeOvertaken`; `OvertakenFromStart` is a run from the
  initial state in which it does). With one dispatcher, flushed and direct
  notifications each stay in arrival order; all of them do exactly when no flushed
  one is sent after a direct one, and that cannot happen while nothing is routed
  to a session that is still flushing.
- **Early notifications.** A flushed notification is dropped exactly when it is
  sent into an open session whose channel is full. With one dispatcher that needs
  a channel with less room than the flush, unlike the default one
  (`DeliveryOrder.LostFromStart` is such a run), or a delivery routed to the
  session during its flush.
- **Lost sessions.** A step leaves a session open and out of reach exactly when
  it takes the id away from the session registered under it: by registering an
  id that is live, or by a rollback, which deregisters by id, whoever holds it.
  The second needs no double registration: a session created under the id of one
  that `Close` has swept is lost when the swept one is rolled back
  (`Teardown.LeakFromStart` is such a run).
- **Late sessions.** `Close` sweeps at most once. A session registered after that
  sweep has ended, with no crash watcher past its check, stays open for good, exactly
  unless its own rollback closes it (`Teardown.LateSessionStaysOpen`).
- **Pending buffers.** The comment on the cap (`client_impl.go:75-79`) says
  `Close` drops the buffers. It does not; only the crash watcher, a registration
  and a rollback do.
- **Back-off overflow.** The doubling follows its schedule for every attempt, and
  never falls, exactly when the first doubling that reaches the cap fits 64 bits;
  otherwise some attempt gets a negative delay. With jitter the documented bounds
  hold exactly when the cap plus its jitter window fits as well. With a base above
  the cap the first attempt is clamped exactly when jitter is applied. The draw
  panics exactly when the jitter window is the largest duration, which with a
  jitter ratio up to one takes the largest base, undoubled, and a ratio of one.
- **Fenced values.** A printed value in a json-fenced block comes out exactly when
  it holds no triple backtick itself, as a string with a code fence in it does; it
  is otherwise cut at the first one (`FencedBlock.FencedRoundTrip`).
- **One-line blocks.** When other lines follow a block written on the opening line
  of its json fence, the fenced extraction returns the text of those lines up to
  the next fence, or nothing without one, in place of the block. The whole
  extraction takes that text if it is not empty, else the block that a fence in the
  preamble opens, else the bare span; a value printed on the opening line comes
  back exactly when the one taken equals it, which for the span means that the text
  from the first opening bracket on begins with it.
- **Budget verdict.** An observation or load of one session undoes an exceeded
  token cap exactly when it lowers the session's tokens, which only a load can,
  and an exceeded cost cap exactly when it lowers the session's cost in dollars,
  which a smaller report, another currency or a load can (totals at or below zero
  aside, which exceed no cap).
- **Adjacent messages.** Two messages of one role end up side by side exactly
  when two chunks with text, of that role, are separated only by chunks without
  text of which one has another role.
- **Turns.** Chunks with and without an id are counted together, despite the
  comment, and an id that comes back after another counts again. Turns equal
  messages exactly when every chunk has an id and no message is interrupted.
- **Line windows.** A read request panics exactly when the lines skipped plus
  the limit exceed the largest `int`; line 2 with the largest limit does so for
  every file.
- **Environment.** The overlay takes full effect exactly when none of its names
  contains `=`.

## Model

| member | source | states |
|---|---|---|
| RoutingTable.TableFollowsHistory | client_impl.go:887-992 | after any history of arrivals, registrations, rollbacks and sweeps, an id belongs to its last registration not undone, is never also pending, and its buffer is exactly the first 64 notifications that came for it since the buffer was last emptied |
| RoutingTable.ReplayDisjoint | client_impl.go:887-906 | registered ids and pending ids are disjoint in every reachable table |
| SessionDelivery.FlushKeepsPrefix | session_impl.go:258-276 | delivering a list to an open session keeps the longest prefix that fits and counts every other notification as dropped |
| SessionDelivery.DefaultBufferLosesNothing | session_impl.go:80-109 | after any history of the table, a flush into a session with the default buffer that no other thread disturbs keeps everything that was pending, in order |
| SessionDelivery.Session.constructor | session_impl.go:80-109 | a session starts open and empty, with the default capacity when none is asked for |
| SessionDelivery.Session.Send | session_impl.go:256-276 | the second critical section: re-checks the flag, sends or counts a drop, and never sends on a shut channel |
| SessionDelivery.Session.Deliver | session_impl.go:231-277 | an undisturbed delivery has the effect of its second critical section |
| SessionDelivery.Session.Close | session_impl.go:490-500 | closing shuts the channel once; closing again changes nothing |
| SessionDelivery.Session.Receive | session_impl.go:113 | a consumer takes the oldest accepted notification and nothing else changes |
| SessionDelivery.Session.Subscribe | session_impl.go:282-294 | a subscription gets an id no live one has, and disturbs no other |
| ClientRouting.Client.EnsureStarted | client_impl.go:860-881 | succeeds exactly for a started, unclosed client; closed comes before not started, and after a crash the transport error is reported |
| ClientRouting.Client.RegisterSession | client_impl.go:887-897 | the id is registered, no longer pending, and the session has been given its whole buffer in order |
| ClientRouting.Client.DeregisterSession | client_impl.go:901-906 | the id is neither registered nor pending |
| ClientRouting.Client.TeardownSession | client_impl.go:921-925 | the id is free and the session closed |
| ClientRouting.Client.RouteSessionUpdate | client_impl.go:964-992 | a notification reaches its session, or its buffer, or finds the buffer full; no other session and no subscription changes |
| ClientRouting.Client.Close | client_impl.go:364-388 | the first call closes every registered session and empties the table but not the buffers; a later one changes nothing |
| ClientRouting.Client.WatchSubprocess | client_impl.go:267-312 | a crash closes every session, empties table and buffers, and leaves the transport error; after `Close` it does nothing |
| RoutingConservation.StepKeeps | session_impl.go:231-277 | every step of every thread keeps the invariant behind the four run theorems below |
| RoutingConservation.NotificationsConserved | client_impl.go:887-992 | after any interleaving, each notification that arrived is in exactly one place: pending, held by a delivering thread, in a channel, received, dropped, refused, or discarded by a close |
| RoutingConservation.SessionsAccountForTheirs | session_impl.go:258-276 | each session accepts a notification at most once and only its own; its drop counter equals the number its full channel refused |
| RoutingConservation.ChannelsNeverPanic | session_impl.go:251-263 | no run sends on a shut channel or shuts one twice, though `deliver` lets go of the lock midway |
| RoutingConservation.PanicsExactly | session_impl.go:251-276 | in any state, a step panics if and only if it sends to, or closes, a session that counts as open with its channel shut |
| RoutingConservation.ShutIsFinal | session_impl.go:251-263 | once a channel is shut no step of any thread sends on it, counts a drop or shuts it again; a receipt takes its oldest notification |
| RoutingConservation.GivenUpExactly | client_impl.go:964-992 | a step discards a notification if and only if its delivery finds the session closed, a rollback empties the buffer that holds it, or a crash empties all, and refuses one if and only if it arrives for an unregistered id with 64 pending |
| RoutingConservation.HistoryExactly | client_impl.go:887-992 | over every run the history that the buffers follow is the steps' own: one arrival for each routing step, numbered in order, and one entry for each registration, rollback and sweep |
| RoutingConservation.PendingFollowsHistory | client_impl.go:964-992 | in every interleaving each buffer holds the first 64 unclaimed arrivals, and no id is registered and pending at once |
| ClientLifecycle.BeginsOnce | client_impl.go:298-372 | in every run a `Close` or a crash watcher goes on to wait for the table if and only if no `Close` began and no crash watcher finished before; otherwise it changes nothing |
| ClientLifecycle.ClosedExactly | client_impl.go:307-372 | the client counts as closed if and only if some `Close` has begun or some crash watcher has finished |
| ClientLifecycle.CrashedExactly | client_impl.go:307-311 | a crash is on record if and only if some crash watcher has finished |
| ClientLifecycle.CloseSweepsOnce | client_impl.go:364-388 | over every run the sweep of `Close` begins at most once and ends at most once, whoever calls it and however often |
| ClientLifecycle.SweptOnceCloseEnded | client_impl.go:364-388 | once the sweep of `Close` has ended, the client is closed with no sweep under way or to come, if and only if no crash watcher is between its check and the end of its sweep |
| ClientLifecycle.SweepSeenThrough | client_impl.go:298-388 | the first to get past the check, once its thread is done, has let go of an empty table: a crash watcher has emptied the buffers and marked the client closed after that, `Close` has left the buffers |
| Teardown.StepTracksUnlessDisplacing | client_impl.go:887-925 | a step keeps every session registered, closed or under teardown if and only if it takes no registered session's id |
| Teardown.SessionsStayTracked | client_impl.go:887-925 | in every run that displaces nothing, every session ever created is registered, closed or under teardown |
| Teardown.SweepClosesExactly | client_impl.go:376-388 | whatever a run did before, after the critical section of `Close` or of the crash watcher every session that was registered is closed, and a session is closed or under its own teardown if and only if it was tracked |
| Teardown.SweepClosesEverySession | client_impl.go:376-388 | in a run that takes no registered session's id, that is so for every session created before |
| Teardown.LateRollbackLeaks | client_impl.go:901-925 | rolling back a session whose id has gone to another leaves that other one open and unreachable |
| Teardown.LeakFromStart | client_impl.go:364-388 | a run from the initial state gets there: one thread creates a session, another closes the client, a third creates a session under the same id, and the first rolls its own back |
| Teardown.OpenUnlessRolledBack | client_impl.go:883-925 | once `Close` has swept and no sweep is to come, a step leaves an open session open if and only if it does not roll it back |
| Teardown.LateSessionStaysOpen | client_impl.go:364-897 | over every run, a session registered after the sweep of `Close` has ended, with no crash watcher past its check still to sweep, is open at the end if and only if it was never rolled back, whatever `Close` and crash watchers come later |
| DeliveryOrder.AcceptedInOrder | client_impl.go:887-992 | with one dispatcher, what a channel accepts is an interleaving of the flushed and the direct notifications, each in arrival order, and all in arrival order if nothing was routed to it during its flush |
| DeliveryOrder.AcceptsExactly | session_impl.go:256-276 | a session accepts a notification if and only if it is sent while the session is open and its channel has room, behind all accepted before; no other step changes what it accepted |
| DeliveryOrder.OvertakenExactly | client_impl.go:964-992 | over every run a session counts as overtaken if and only if some step routed to it while its flush was being delivered |
| DeliveryOrder.MadeAsRegistered | session_impl.go:80-109 | over every run a session keeps the id and channel capacity of its registration, 128 unless a positive one was asked for, and flushes what was pending for it then |
| DeliveryOrder.StepKeepsArrivalOrder | client_impl.go:887-897 | a step keeps what a session accepted in arrival order if and only if it does not send a flushed notification after a direct one |
| DeliveryOrder.ArrivalOrderExactly | client_impl.go:883-897 | over every run of one dispatcher, a channel accepts in arrival order if and only if no step sent a flushed notification late |
| DeliveryOrder.FlushedDroppedExactly | session_impl.go:256-276 | a step drops a flushed notification if and only if it is its send into an open session with a full channel |
| DeliveryOrder.FlushLosesNothing | client_impl.go:887-897 | over every run of one dispatcher, a flush holds at most 64 notifications, and a session with room for its flush drops none of them unless something was routed to it during the flush |
| DeliveryOrder.FlushCanBeOvertaken | client_impl.go:883-897 | from every state with a flush in progress and room in the channel, five steps accept a newer notification before an older one |
| DeliveryOrder.OvertakenFromStart | client_impl.go:883-897 | a run of two threads from the initial state after which a session has accepted out of arrival order |
| DeliveryOrder.LostFromStart | client_impl.go:883-897 | a run of two threads from the initial state in which a session with room for one drops the second of two early notifications, with nothing routed during the flush |
| LockOrder.SomeoneMoves | session_impl.go:231-276 | while every thread takes locks in rank order and any has work left, some thread can move, waiting writers included |
| LockOrder.NoScheduleSticks | session_impl.go:231-276 | no schedule of such threads gets stuck, and each is as long as the work it has done |
| LockOrder.ScheduleExclusive | session_impl.go:231-276 | under every schedule a lock held for writing is held by no other thread |
| LockOrder.ReadingTwiceDeadlocks | client_impl.go:449-472 | a second read of a lock behind a waiting writer blocks both for good, so the order is strict for readers too |
| LockOrder.OwnHandlersInOrder | client_impl.go:931-957 | the budget and turn handlers, cancelling their own session from inside a delivery, keep the lock order |
| LockOrder.SdkProgramInOrder | client_impl.go:376-388 | routing, registration, rollback, `Close`, the crash watcher and `CancelAll` keep the lock order for any number of sessions and deliveries, whatever hooks, handlers and drop callbacks do that keeps it where they run |
| LockOrder.SweepsNestSessions | client_impl.go:364-388 | `Close` and the crash watcher take the client's lock, then `sessionsMu`, and inside it each session's lock, and nest nothing else |
| LockOrder.HooksUnderSession | hooks.go:242-297 | a delivery reads the hook table once for each hook event, inside the first of its two sections under the session lock |
| LockOrder.OthersLetGoFirst | client_impl.go:887-992 | routing, registration, rollback and `CancelAll` take a session's lock only after letting go of `sessionsMu`, twice for each delivery; the budget handler nests the cost lock in the budget lock and nothing else |
| LockOrder.SdkNeverDeadlocks | client_impl.go:887-992 | any number of these operations running at once never reach a stuck state before all have finished |
| LockOrder.HookThatCancelsDeadlocks | hooks.go:242-297 | a hook that cancels its own session blocks for good, since hooks run under the session lock |
| JsonScanner.ExtractBracedSpan | structured_output.go:300-364 | returns the shortest span from the first opening bracket whose scan depth returns to zero, and nothing exactly when there is none |
| JsonScanner.RunConcat | structured_output.go:328-361 | scanning composes over concatenation |
| JsonScanner.EscapedPairIgnored | structured_output.go:328-347 | a backslash and the character after it leave the scan as it was, in strings and outside them |
| JsonScanner.SpanUnique | structured_output.go:300-364 | the description of the result determines it |
| JsonScanner.SpanOfSpan | structured_output.go:300-364 | extracting again from a non-empty result gives the same result |
| JsonRoundTrip.StringNeutral | structured_output.go:333-347 | a printed string, whatever brackets, quotes and escapes it holds, leaves the scanner as it was |
| JsonRoundTrip.ValueNeutral | structured_output.go:328-361 | so does every printed JSON value at any depth, for either bracket kind, with any whitespace |
| JsonRoundTrip.PrintedSpan | structured_output.go:300-364 | for every JSON object or array, printed with any whitespace after text without an opening bracket and before anything, exactly the printed text is extracted |
| FencedBlock.ExtractJsonCandidate | structured_output.go:270-280 | a json block wins over a plain block, which wins over a bare span |
| FencedBlock.FencedRoundTrip | structured_output.go:270-298 | after a preamble without a json fence, a fenced printed value comes out, of the fence and of the whole extraction, if and only if it holds no triple backtick, whatever brackets stand before the block, whatever follows, with any of the listed white-space code points around the value and any text on the opening line |
| FencedBlock.FencedJsonText | structured_output.go:270-298 | the same on the text as typed, with any white space of RFC 8259 around the value |
| FencedBlock.PlainFencedRoundTrip | structured_output.go:270-298 | in a reply without a json fence, a value in the first plain fence comes out if and only if it holds no triple backtick |
| FencedBlock.TrimsExactly | structured_output.go:297 | trimming takes off exactly the code points with the White_Space property at both ends: what is left begins and ends with none of them, and nothing else satisfies that |
| FencedBlock.OneLineBlock | structured_output.go:282-298 | after a preamble without a json fence, a block on the opening line gives way to the text of the lines after it up to a fence, or to nothing; when the reply ends on that line, a block that holds no fence and does not end in a backtick comes out |
| FencedBlock.OneLineCandidate | structured_output.go:270-298 | for every preamble without a json fence and every later text, the whole extraction still gives the printed value back if and only if the later block equals it, or without one the block a fence in the preamble opens does, or without either the text from the first opening bracket on begins with it |
| FencedBlock.OneLineAfterProse | structured_output.go:270-298 | after a preamble without fences and brackets the value comes back if and only if the later lines hold no block or the same |
| ErrorClassification.RetryMeansBackoff | error_classification.go:107-150 | retrying is advised exactly for failures to back off from whose prompt is not too long; only the absence of an error has no class |
| ErrorClassification.RetriedExactly | error_classification.go:107-261 | a failure is retried if and only if its message has none of the eight phrases for a prompt too long, and it wraps no sentinel and has code 429, 503 or 529 or, without a deciding code, one of the listed phrases for a connection, limit or overload problem |
| ErrorClassification.RecoveryExactly | error_classification.go:107-261 | which failures ask for refreshing the login, for backing off and for stopping, each if and only if stated on sentinels, code and phrases; none asks for the fallback |
| ErrorClassification.CodeGivesClass | error_classification.go:182-204 | 401 and 403 are authentication, 429 a rate limit, 503 and 529 overload, 408, 409 and the other server errors failed executions without recovery, whatever the message says |
| ErrorClassification.SentinelGivesClass | error_classification.go:114-127 | the class of each wrapped sentinel, whatever the code and the message, in their order |
| ErrorClassification.MessageGivesClass | error_classification.go:206-225 | otherwise the phrases decide between connection, limit and overload, and a message that says nothing is a failed execution |
| ErrorClassification.SubclassExactly | error_classification.go:154-180 | the finer class is that of the first list with a phrase in the message |
| RetryPolicies.ComputeDelay | retry_policy.go:102-118 | the loop with 64-bit wrap-around computes the doubling with its cap, in the stated number of rounds, or panics where jitter does |
| RetryPolicies.ScheduleHoldsExactlyWhenTopFits | retry_policy.go:102-118 | every attempt's delay is base times a power of two, clamped, if and only if the first doubling to reach the cap fits 64 bits |
| RetryPolicies.WrapsAtTop | retry_policy.go:108-115 | otherwise some attempt's delay is negative |
| RetryPolicies.DelayBounds | retry_policy.go:102-141 | under the documented preconditions every jittered delay lies between the clamped schedule and the cap |
| RetryPolicies.DelayBoundsExactly | retry_policy.go:102-141 | with a base within the cap and a jitter ratio in (0, 1], those bounds hold for every attempt and draw if and only if the top doubling fits 64 bits and so does the cap plus its jitter window |
| RetryPolicies.JitterReaches | retry_policy.go:120-141 | with a window that fits, every delay from the one before jitter to the window's end is what some draw gives, cut at the cap if there is one |
| RetryPolicies.BackoffMonotone | retry_policy.go:102-118 | the delay before jitter never falls from one attempt to a later one if and only if the top doubling fits 64 bits |
| RetryPolicies.RoundsBounded | retry_policy.go:108-115 | while the top doubling fits 64 bits, the doubling loop stops after as many rounds as take the base to the cap |
| RetryPolicies.FirstAttemptClamped | retry_policy.go:120-141 | for any base, cap and ratio, the first delay is within the cap if and only if the base is, or jitter is applied; it panics if and only if the jitter window is the largest duration |
| RetryPolicies.PanicsExactly | retry_policy.go:120-141 | with a jitter ratio up to one, computing a delay panics if and only if the attempt is not past the first, the base is the largest duration and the ratio is one |
| RetryPolicies.DecisionBounds | retry_policy.go:51-79 | a failure is retried exactly when its class is and attempts are left, of the caller's own positive number or five; with a base within the cap, or with a hint, the wait is at most the cap; the decision panics exactly where it computes a delay that does |
| RetryPolicies.DecisionDelay | retry_policy.go:51-100 | a hint is waited for, up to the caller's cap or half a minute; without hint and jitter the wait is the caller's base, or half a second, doubled for every attempt up to the cap |
| ResilientQuery.Resilient | resilient.go:42-92 | the loop with its early exits returns the result of the specified run, after as many queries and as much sleep |
| ResilientQuery.LoopStops | resilient.go:52-91 | the loop stops at an attempt that ends it, having made one query for each it went on from |
| ResilientQuery.RetryRun | resilient.go:42-110 | for every behaviour of the outside: at most one query more than the caller's retries, or five; before every further query the last one failed retryably and the context let query and sleep pass; the result is the last query's or the context's, the latter only before a query or during a sleep; the exit after the loop is dead, and a panic comes from the jitter after the last query alone |
| ResilientQuery.RunNeverPanics | resilient.go:42-92 | with a jitter ratio up to one and any base but the largest duration no run panics |
| ResilientQuery.SleepBounded | resilient.go:72-110 | with a base within the cap, total sleep is at most the caller's retries, or five, times the caller's cap, or half a minute, whatever overflows |
| ResilientQuery.SleepCappedExactly | resilient.go:72-110 | no attempt of any run sleeps longer than the cap if and only if the base is within the cap or its jitter always panics |
| CostTracking.CostTracker.RecordUsageUpdate | cost_tracker.go:158-176 | a usage update overwrites cost, currency and context of its own session only |
| CostTracking.CostTracker.ObservePromptResult | cost_tracker.go:119-156 | a prompt result raises each token field of its own session to the reported value |
| CostTracking.CostTracker.Snapshot | cost_tracker.go:179-218 | the walk over the map yields the aggregate of every record once, with the totals of every other order, and for cost the sum of the amounts in dollars or in no stated currency |
| CostTracking.CostIsDollarSum | cost_tracker.go:199-201 | the total cost is the sum of the amounts of the sessions that name the dollar or no currency, and of no others |
| CostTracking.TokensAreSums | cost_tracker.go:203-215 | each token total, and the context in use, is the sum of the same field over the sessions |
| CostTracking.CurrenciesAreThoseNamed | cost_tracker.go:190-197 | a currency is listed if and only if some session names it, and once |
| CostTracking.ReportMakesTotal | cost_tracker.go:158-201 | after a report the total is that of the other sessions, plus the report's amount if it is in dollars or in no stated currency |
| CostTracking.CostTracker.SessionSnapshot | cost_tracker.go:222-253 | known sessions have a snapshot, from which their whole record can be read back, and which names at most one, non-empty currency |
| CostTracking.RecordsAreFolds | cost_tracker.go:119-176 | each session's record is a fold of its own reports, results and loads only |
| CostTracking.TokensAreMaxima | cost_tracker.go:119-156 | each token field is the largest value stated for it since the last load, the loaded one included, or zero |
| CostTracking.CostIsLatest | cost_tracker.go:158-176 | cost, currency and context figures are the last ones reported, as long as no load follows |
| CostTracking.SnapshotOrderFree | cost_tracker.go:179-218 | any two walks give the same totals, and the same currencies up to order |
| CostTracking.ObserveMovesTotals | cost_tracker.go:119-218 | one report, result or load moves the cost, every token sum and the context in use by exactly what it changes in its session's record |
| CostTracking.ContextIsLargest | cost_tracker.go:179-218 | the aggregate's context window is the largest of any session, or zero |
| CostTracking.SaveLoadRoundTrip | cost_tracker.go:222-382 | loading what was saved for a session undoes all that was observed of it in between and nothing observed of others; with nothing in between, the tracker and so every snapshot is unchanged |
| CostTracking.CostTracker.LoadSessionCost | cost_tracker.go:354-382 | loading a snapshot taken of a record puts that record back for the session and changes no other |
| BudgetTracking.BudgetTracker.NewBudgetTracker | budget_tracker.go:91-107 | a tracker is made if and only if the threshold is zero or in (0, 1]; zero becomes 0.90, and the caps are kept as given |
| BudgetTracking.BudgetTracker.CheckBudget | budget_tracker.go:193-203 | answers yes if and only if the sessions' dollar amounts sum to a positive cost cap, or their tokens to a positive token cap |
| BudgetTracking.NearExactly | budget_tracker.go:142-176 | a budget not exceeded is near completion if and only if the threshold's share of a cap has been used |
| BudgetTracking.RatioIsLargestShare | budget_tracker.go:142-176 | the ratio reported is the largest share of a cap used |
| BudgetTracking.VerdictFollowsRatio | budget_tracker.go:142-188 | exceeded if and only if the ratio is at least one, near if and only if it is at least the threshold and below one |
| BudgetTracking.VerdictOrderFree | budget_tracker.go:142-176 | the verdict does not depend on the order sessions are summed in |
| BudgetTracking.TotalsNeverFall | cost_tracker.go:119-218 | over any run without a load total tokens never fall; over one of non-decreasing reports in a fixed currency neither does total cost |
| BudgetTracking.StepLatchesExactly | budget_tracker.go:142-188 | a report, result or load leaves every exceeded token cap exceeded if and only if it does not lower its session's tokens, every exceeded cost cap if and only if it does not lower the session's part of the cost, and every exceeded budget if and only if neither (or the total concerned is not above zero) |
| BudgetTracking.RunLatchesExactly | budget_tracker.go:178-203 | over a run of reports, results and loads nothing once exceeded is ever not exceeded later, for either kind of cap or both, if and only if each event keeps it so |
| BudgetTracking.VerdictLatches | budget_tracker.go:178-203 | an exceeded token cap stays exceeded over any run without a load, any exceeded budget over a steady one |
| BudgetTracking.CostVerdictCanRevert | budget_tracker.go:178-188 | a smaller second report undoes an exceeded cost cap |
| BudgetTracking.TokenVerdictCanRevert | cost_tracker.go:354-382 | loading a smaller saved record undoes an exceeded token cap |
| LoadHistory.MessagesFromNotifications | load_history.go:137-185 | the flush loop yields the maximal same-role runs of the message chunks, concatenated, without the empty ones |
| LoadHistory.TextConserved | load_history.go:137-185 | text is conserved in order, for each role and over all |
| LoadHistory.MessagesSpeak | load_history.go:137-200 | the messages of each role hold, in order, exactly the texts of that role's own field of the updates |
| LoadHistory.LoneChunk | load_history.go:189-200 | a lone chunk of a kind makes one message of that kind's role with its text |
| LoadHistory.SplitUpdate | load_history.go:137-200 | splitting a chunk in two changes no message |
| LoadHistory.OtherUpdatesIgnored | load_history.go:161-165 | an update without message text can stand anywhere without effect |
| LoadHistory.MessagesAlternate | load_history.go:147-163 | adjacent messages differ in role if and only if no two chunks with text, of one role, are separated only by chunks without text of which one has another role |
| LoadHistory.EmptyChunkSplits | load_history.go:147-163 | an empty chunk of another role between two of the user's leaves two user messages side by side |
| LoadHistory.EmptyAgentChunkSplits | load_history.go:147-200 | the same from the updates' own fields: an agent chunk whose text is empty is still a chunk |
| LineWindow.LinesExactly | internal/handlers/dispatcher.go:257 | the lines are the only texts without line breaks that make up the content when joined by line breaks |
| LineWindow.PanicsExactlyOnOverflow | internal/handlers/dispatcher.go:256-270 | the call panics if and only if the lines skipped plus the limit exceed the largest `int` |
| LineWindow.LargestLimitPanics | internal/handlers/dispatcher.go:256-270 | line 2 with the largest limit panics for every file |
| LineWindow.WholeFile | internal/handlers/dispatcher.go:256-270 | without an effective line or limit the file comes back unchanged |
| LineWindow.HeadAndTail | internal/handlers/dispatcher.go:256-270 | the first n lines and the lines from n + 1 on make up the file |
| LineWindow.PageHasItsLines | internal/handlers/dispatcher.go:254-270 | a window consists of exactly the lines asked for |
| LineWindow.PagingRebuilds | internal/handlers/dispatcher.go:254-270 | for every content and page size, the pages joined by newlines rebuild the content, unless the last page's end exceeds the largest `int`, and then the reading panics |
| PathContainment.AcceptsExactlyInside | internal/handlers/dispatcher.go:172-198 | a target is accepted if and only if a directory is configured and resolvable, the target is absolute, and the directory's clean components, as CleanTexts makes them out, are a prefix of the target's |
| PathContainment.CleanTexts | internal/handlers/dispatcher.go:186 | on the text of any path, appending a slash and a name adds the name, `/..` takes the last component off and at the root nothing, `/.` and `/` change nothing |
| PathContainment.UpInTarget | internal/handlers/dispatcher.go:186-195 | `..` in the target is resolved first: beside the directory only the directory's own name is accepted, below it going down and up again is, and going up twice is as beside it |
| PathContainment.UpInDirectory | internal/handlers/dispatcher.go:181-195 | so is `..` in the directory; a relative directory is taken from the working directory, and refused without one |
| PathContainment.RefusalsExactly | internal/handlers/dispatcher.go:172-184 | which of the other refusals is given: no directory, a target not from the root, or a relative directory that cannot be resolved |
| PathContainment.RelLeadsToTarget | internal/handlers/dispatcher.go:188-191 | the relative path the test looks at leads from the directory to the target |
| PathContainment.CleanRender | internal/handlers/dispatcher.go:186 | cleaning a clean path changes nothing |
| PathContainment.NamesDecide | internal/handlers/dispatcher.go:193-195 | a sibling that extends the directory's name is refused, a name that begins with two dots is accepted |
| MaxTurns.AttachMaxTurns | maxturns.go:28-39 | a counter is attached exactly for a positive limit |
| MaxTurns.TurnCounter.AgentMessage | maxturns.go:40-87 | a chunk cancels if and only if it takes the turns of the stream to the limit |
| MaxTurns.CancelsOnce | maxturns.go:40-87 | a stream cancels at the first chunk that reaches the limit and nowhere else, and never if none does |
| MaxTurns.TurnsAreMessages | maxturns.go:10-27 | turns are at least the distinct messages, and equal to them if and only if every chunk has an id and no message is interrupted |
| MaxTurns.ConcurrentCancelsOnce | maxturns.go:32-75 | under any interleaving there is at most one cancellation, and once all deliveries are done the outcome is that of handling them one by one in some order |
| MaxTurns.DeliveriesEnd | maxturns.go:40-87 | under any interleaving a run takes at most four actions for each chunk delivered, so every delivery ends |
| BuildEnvironment.IndexNames | internal/subprocess/acp.go:244-254 | the index holds, for every name set, its last entry, and nothing else |
| BuildEnvironment.GetExactly | internal/subprocess/acp.go:244-254 | what a process is taken to see for a name is the value behind the first `=` of the last entry that begins with the name and `=`, or nothing without such an entry |
| BuildEnvironment.BuildEnv | internal/subprocess/acp.go:237-266 | in any map order, the overlay takes full effect if and only if no name in it contains `=`, and then every other variable keeps its value; entries are replaced in place or added once behind |
| BuildEnvironment.OverlayOutcome | internal/serve/serve.go:218-246 | the same for the copy of the function used for `opencode serve` |
| Strings.JoinSplit | internal/handlers/dispatcher.go:257-269 | splitting at a newline and joining again is the identity |

## Left out

- Subprocess control, stdio, HTTP, file and database access, MCP and ACP library calls: foreign code; RPCs are nondeterministic outcomes where they matter.
- Telemetry, logging and health counters: no property of theirs spans operations.
- The state that `observeInLock` keeps for hooks (tool-call start times, available commands) and the hooks' own effects; for deadlock freedom hooks and drop callbacks are taken to use no SDK lock but ones ranked above those held where they run.
- What subscribers do apart from taking locks; a handler that calls back into the SDK during a delivery counts as another thread.
- `runTurn` and `drainReplay`: their results depend on timers.
- Attribution of a cancelled turn (`cancelIntended`): a watcher left over from an earlier prompt can still set it.
- `CancelAll` and the budget handler apart from their locking, and the RPC that a cancellation makes.
- Hook merging, tool filters, option helpers and merging, effort selection, version comparison: case analysis without a law across functions.
- Fairness of schedules: the runs are all finite ones; that a blocked thread is eventually picked is not stated.
- Time cut off a sleep: a sleep that is cut short counts in full towards the total.
- Float rounding: costs, ratios and jitter are exact reals; a conversion of an unrepresentable float to a duration may give any value.
- Overflow of token sums and of the turn counter: both are unbounded here.
- The retry-after pattern in messages: the hint is part of the observed error, and messages come lower-cased.
- JSON persistence of a session's cost: saving and loading is the identity on the snapshot.
- Text is a sequence of Unicode scalar values, not of bytes; every byte the scanners look for is ASCII.
- Symbolic links, volumes and other separators: paths are slash-separated and containment is lexical, as in the source.
- DeliveryOrder.ArrivalOrderExactly: takes one dispatcher thread, as the connection has; with several, direct notifications can overtake one another.
- LineWindow.PagingRebuilds: takes the number of lines to fit an `int`, as the length of a Go slice does.
- LineWindow.PageHasItsLines: likewise, and for requests that do not panic; PanicsExactlyOnOverflow settles the others.
- RetryPolicies.PanicsExactly: takes a jitter ratio up to 1; FirstAttemptClamped settles the first attempt for larger ones.
- BuildEnvironment.BuildEnv: what a process sees is the last entry for a name; platforms that fold case in names are not modelled.
- RetryPolicies.DelayBoundsExactly: takes a jitter ratio up to 1; a larger one can make a window that no duration represents.
