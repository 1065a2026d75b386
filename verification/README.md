# Verified model of the email assistant

The email assistant turns inbound mail into agent runs and agent runs into replies, over a handful of
shared tables (threads, messages, message index, runs, usage ledger, scheduled tasks) that web
processes, workers and a scheduler change concurrently. This Dafny project models that protocol and the
self-contained algorithms around it, and proves what they promise.

`dafny verify dfyconfig.toml` checks everything.

| file | what it models |
|---|---|
| `RunFooter.dfy` | the reply footer, `str.splitlines`, quoting, and footer stripping |
| `Threading.dfy` | thread resolution over the message index, answer envelopes |
| `InboundProtocol.dfy` | webhook and surface deliveries interleaved at their commits, with crashes |
| `InboundRuntime.dfy` | `accept_inbound` and `accept_surface_action` as methods on the stored tables |
| `RunStatus.dfy` | the status of a run |
| `AgentJob.dfy` | one `run_agent` job on one queued run, a fault possible at every awaited call |
| `Pricing.dfy`, `Metering.dfy` | token prices, metered tool costs, ledger rows, costs shown on steps |
| `Budget.dfy` | the budget gate and how far concurrent runs take spending past it |
| `History.dfy` | message histories handed from run to run |
| `ScheduledTasks.dfy` | one tick over claimed task rows, as methods on rows |
| `SchedulerProtocol.dfy` | ticks, run completions and user replies interleaved at their commits |
| `WorkspaceTree.dfy` | the workspace file tree, tar export and import |
| `BashkitEnvironment.dfy` | the environment: byte cache, mounts, snapshots, persist tasks |
| `MemoryUsers.dfy` | double-checked creation of memory users, as a protocol and as the adapter |
| `ConnectionRefused.dfy` | the search through a possibly cyclic graph of exceptions |

Three styles are used. Code that mutates an object is a class whose methods are proved against functions
of the old state. Interleavings are a `State`, a `Step` with a guard and an effect, an invariant kept by
every step, and theorems over every run from the empty state. Where both are there they share the
same functions (`NewThread`, `After`, `Counted`), and the code is tied to the protocol by proof: every call
of the acceptance methods and of the memory adapter is itself a run of its protocol, and the tick's loop
computes exactly what the protocol's commit writes.

Money is in units of $0.0001 and prices in cents per million tokens, so all cost arithmetic is exact on
integers.

## Findings

Places where the code does something other than its documentation, or than one might expect. Each is a
proved statement, with the exact condition.

- **Usage can be booked twice.** If the curate defer or the count of the scheduled notification raises
  after `record_completion` has committed, `record_failure` writes the same usage again and the run that
  was answered ends as failed. `AgentJob.RunRow.RunAgent` says that this happens exactly when
  `CompletedThenFailed` holds, and otherwise costs are booked once or not at all; `BookedTwice` is an instance.
- **A budget reply may leave the run labelled completed.** If the curate defer or the relabelling raises
  (`AgentJob.FinalStatus`).
- **The budget works for one window only.** The budget reply (`src/email_agent/domain/budget_reply.py:28`)
  says that the assistant is back automatically in the next period. No code moves the window and spending in
  a window never decreases, so a limit once reached refuses for ever (`Budget.NeverResumes`), and one not
  reached by the end of the window never refuses again (`Budget.NeverEnforcedAfterReset`).
- **A duplicate delivery may leave an empty thread, or report a wrong one.** The resolver commits its thread
  before the duplicate is noticed. Whatever else runs meanwhile, the thread reported is the message's own
  exactly when the headers led there at the time of resolving (`InboundProtocol.DuplicateReportsItsThread`).
  Three instances in which they did not: a mail without threading headers, a mail stored before its parent and
  repeated after it, and two deliveries of one mail that resolve before either is stored
  (`DuplicateRootReportsNewThread`, `DuplicateChildReportsParentThread`, `ConcurrentDuplicateReportsOwnThread`).
- **A stored run may never be enqueued.** If the process dies, or the counter reset or the defer raises, after
  the commit, the run stays queued in the table only, and no repeated delivery enqueues it
  (`InboundRuntime.Runtime.AcceptInbound`, `InboundProtocol.DuplicateIsInert`).
- **A run for a reply that nobody executes.** `_find_existing` does not look at the direction, and surface
  callers choose their provider ids (`src/email_agent/web/surfaces.py:348-354`,
  `src/email_agent/web/assistant_tools.py:70`). An action with the id of a stored reply adds a run for that
  reply, which is never enqueued. Runs stay with inbound messages if and only if the message found is one
  (`InboundProtocol.ReusedIdMakesRunForReply`); such a state is reachable (`RunForReplyReachable`) and only
  by such an id (`IdsApartSuffice`). What holds of inbound messages holds all the same
  (`ExactlyOneRun` has no assumption on ids). Two such actions at once add two runs
  (`TwoRunsForReply`), as nothing but the reading keeps runs apart, and from then on every call with that id
  raises (`TwoRunsStopCalls`).
- **A mount that fails half-way leaves stale bytes.** An existing entry is removed before the mount is
  made, but cached bytes below it are evicted only afterwards. `BashkitEnvironment.Environment.MountReadonly`
  gives the condition on the state and the faults before the call, `StaleAfterFailedMount` an instance.
- **A tar import evicts nothing.** The cache stays coherent exactly when no cached file gets a different text
  (`BashkitEnvironment.Environment.ImportTar`, with an instance in `StaleAfterImport`).
- **An entry called `workspace` at the top of the workspace does not survive export and import**, however
  deeply such entries are nested (`WorkspaceTree.RoundTripExact`).
- **Cached tokens beyond the prompt tokens raise the cost**, for every model and by an exact condition
  (`Pricing.CacheBeyondPromptCosts`, with an instance in `CacheBeyondPromptWitness`), and can
  be lost on the failure path when no other token was reported (`Metering.ReturnedThenFailedConserves`).

## Model

| member | source | states |
|---|---|---|
| RunFooter.IsMarkerLine | src/email_agent/domain/run_footer.py:72-79 | true exactly when the line is any sequence of ">" and "> " prefixes, white space, the marker, white space, and any "\r" and "\n" at the end |
| RunFooter.MarkerIs | src/email_agent/domain/run_footer.py:72-79 | the function the other laws use is true of exactly those lines |
| RunFooter.CharacterClasses | src/email_agent/domain/run_footer.py:63-79 | the line breaks of `str.splitlines` and the white space of `str.strip`, character by character |
| RunFooter.StripFooter | src/email_agent/domain/run_footer.py:56-69 | the result is the first k lines of the body, none of them such a line, and line k, if there is one, is such a line |
| RunFooter.StripCuts | src/email_agent/domain/run_footer.py:56-69 | the same of the function the other laws use |
| RunFooter.LinesAre | src/email_agent/domain/run_footer.py:63 | cutting into lines loses nothing, no line has a break but at its end, all but the last end in one, "\r\n" stays together |
| RunFooter.LinesOfQuote | src/email_agent/domain/run_footer.py:63 | a quoted text is cut into exactly the quoted lines of the text, for every kind of line break |
| RunFooter.MarkerUnderQuote | src/email_agent/domain/run_footer.py:72-79 | quoting a line neither makes nor unmakes a marker line |
| RunFooter.MarkerUnderBareQuote | src/email_agent/domain/run_footer.py:74-78 | nor does a bare ">" in front of a line that does not start with a blank |
| RunFooter.StripIdempotent | src/email_agent/domain/run_footer.py:56-69 | stripping twice is stripping once, and no line of the result is a marker line |
| RunFooter.StripUnderQuotes | src/email_agent/domain/run_footer.py:56-79 | stripping commutes with any number of quote levels |
| RunFooter.StripReply | src/email_agent/domain/reply_envelope.py:66-74 | stripping a built reply gives back the body and the two newlines (one for an empty body) if and only if the body has no marker line of its own |
| RunFooter.StripQuotedReply | src/email_agent/runtime/assistant_runtime.py:269-273 | when the reply returns quoted any number of times below new text, exactly the new text and the quoted body survive if and only if neither has a marker line of its own |
| RunFooter.FooterLines | src/email_agent/domain/run_footer.py:17-53 | a rendered footer reads, line by line: an empty line, the marker, the run, the tokens in and out, the cost, and the admin link if there is one |
| RunFooter.DecimalReads | src/email_agent/domain/run_footer.py:34 | a token count is written as the digits that stand for it, without a leading zero |
| RunFooter.DollarsRead | src/email_agent/domain/run_footer.py:29 | a cost is written as its sign, dollars and exactly four decimals, which read back as that cost |
| Threading.ResolveThread | src/email_agent/domain/thread_resolver.py:45-61 | the thread In-Reply-To leads to, if it is indexed; else that of the last indexed reference; none exactly when no header is indexed |
| Threading.LastIndexedIs | src/email_agent/domain/thread_resolver.py:57-60 | the scan yields a thread exactly when some reference leads to it and no later reference is indexed |
| Threading.ResolveKeepsAssistant | src/email_agent/domain/thread_resolver.py:63-78 | a resolved thread always belongs to the assistant that asked |
| Threading.AnswerStaysInThread | src/email_agent/domain/reply_envelope.py:76-87 | an answer with the headers of section 3.6.4 of RFC 5322 to any stored message resolves to its thread |
| Threading.AnswerToAnswers | src/email_agent/domain/reply_envelope.py:76-87 | a reply or notice is such an answer: it names its parent and keeps the references of the parent, in order |
| Threading.AnswerToNoticeStaysInThread | src/email_agent/domain/error_envelope.py:39-49 | an answer to a failure notice, which is never indexed, resolves to the thread of the inbound that failed |
| Threading.ChainStaysInThread | src/email_agent/domain/thread_resolver.py:57-60 | the same through any chain of headers after the stored one that are unknown or in the thread |
| InboundProtocol.NewThreadKeeps | src/email_agent/domain/thread_resolver.py:80-94 | resolving, with its own commit, keeps the table invariant and changes no row |
| InboundProtocol.AcceptKeeps | src/email_agent/runtime/assistant_runtime.py:284-299 | one transaction adding message, index entry and run keeps every table invariant, above all exactly one run per inbound message in the message's thread |
| InboundProtocol.RecordKeepsInv | src/email_agent/domain/run_recorder.py:258-308 | recording a reply keeps the invariant, whether its provider id is new, and a row and an index entry are added, or known, and the existing row is returned |
| InboundProtocol.RecordedReplyIsStored | src/email_agent/domain/run_recorder.py:258-308 | a new reply is stored outbound in the thread of its run with the header, references and body that were sent, and indexed there |
| InboundProtocol.FoundHasRun | src/email_agent/runtime/assistant_runtime.py:1178-1184 | the query for the run of an inbound message that was found instead of stored always returns one |
| InboundProtocol.RunForReplyKeeps | src/email_agent/runtime/assistant_runtime.py:1186-1196 | a run inserted for a reply, none having been read, keeps the tables consistent |
| InboundProtocol.StepKeepsInv | src/email_agent/runtime/assistant_runtime.py:269-399 | every step of every delivery keeps the tables, the in-flight deliveries and the queue accounting consistent, and only adds rows |
| InboundProtocol.RunsKeepInv | src/email_agent/runtime/assistant_runtime.py:269-399 | so does every run of steps |
| InboundProtocol.ExactlyOneRun | src/email_agent/db/models.py:178 | in every reachable state, whatever ids callers choose: one message per assistant and provider id, exactly one run per inbound message and in its thread, no run enqueued twice |
| InboundProtocol.CreatedIsStored | src/email_agent/domain/inbound_persister.py:49-78 | in every reachable state every delivery answered as the first of its mail has its message in the tables with the header, references and body of that mail, inbound, in the thread it reported, indexed there, with its run |
| InboundProtocol.IdsApartSuffice | src/email_agent/domain/inbound_persister.py:82-89 | as long as no delivery came with the id of a stored reply, runs are for inbound messages only |
| InboundProtocol.EnqueuedExactlyOnce | src/email_agent/runtime/assistant_runtime.py:303-311 | once no call is in flight each run for an inbound message was enqueued exactly once unless its creator died between commit and defer, and runs for replies never; without such deaths and such ids the queue holds each run once |
| InboundProtocol.DuplicateIsInert | src/email_agent/domain/inbound_persister.py:45-47 | no step of a repeated delivery changes messages, index or queue; it adds a run exactly when it commits having read none, which takes a reply, and a thread exactly when its headers resolve to nothing |
| InboundProtocol.DuplicateReportsItsThread | src/email_agent/runtime/assistant_runtime.py:281-319 | over every run between resolving and answering: a call that turns out to be a repetition, concurrent or not, reports its message's thread exactly when its headers led to that thread when it resolved |
| InboundProtocol.DuplicateRootReportsNewThread | src/email_agent/domain/thread_resolver.py:39-43 | without threading headers it is answered with a new thread that holds no message |
| InboundProtocol.DuplicateChildReportsParentThread | src/email_agent/domain/thread_resolver.py:51-56 | a mail stored before its parent and repeated after it is answered with the parent's thread |
| InboundProtocol.ConcurrentDuplicateReportsOwnThread | src/email_agent/domain/thread_resolver.py:39-43 | a run from empty tables in which two deliveries of one mail resolve first, and the second to commit reports its own empty thread |
| InboundProtocol.ConversationsStayTogether | src/email_agent/domain/thread_resolver.py:45-61 | in every later state of every run, an answer to a stored message or to notices for it resolves to that message's thread |
| InboundProtocol.ReusedIdMakesRunForReply | src/email_agent/domain/inbound_persister.py:82-89 | ensuring a run for the message found keeps runs to inbound messages if and only if that message is inbound |
| InboundProtocol.SurfaceActionWithReplyId | src/email_agent/runtime/assistant_runtime.py:321-399 | from any state, a surface action with the id of a reply runs to its end, adds a run for that reply and enqueues nothing |
| InboundProtocol.RunForReplyIsNeverQueued | src/email_agent/runtime/assistant_runtime.py:387-391 | in every later state of every run such a run is still not enqueued |
| InboundProtocol.RunForReplyReachable | src/email_agent/web/surfaces.py:348-354 | a run of the protocol from empty tables to a state in which a reply has a run that was never enqueued |
| InboundProtocol.TwoRunsForReply | src/email_agent/runtime/assistant_runtime.py:1178-1196 | from any state, two concurrent actions with the id of a reply run to a state with two runs for it |
| InboundProtocol.TwoRunsStopCalls | src/email_agent/runtime/assistant_runtime.py:1178-1184 | in every later state no call with that id gets past the query for the run |
| InboundRuntime.Runtime.ResolveThread | src/email_agent/domain/thread_resolver.py:39-61 | the thread returned and the threads table afterwards, both exactly; the call is a step of the protocol |
| InboundRuntime.Runtime.Persist | src/email_agent/domain/inbound_persister.py:31-79 | created exactly for an unseen provider id; a clash on the message header, or two runs for the message found, rolls back; all rows written, exactly, a new message with pid, header, references and body of the mail; the call is a run of the protocol |
| InboundRuntime.Runtime.QueryRun | src/email_agent/runtime/assistant_runtime.py:1178-1184 | the one run of a message, none, or an exception exactly when there are two |
| InboundRuntime.Runtime.ResetCounters | src/email_agent/runtime/assistant_runtime.py:991-1006 | afterwards every task of the assistant has the count 0 and is otherwise as before, and no other task has changed |
| InboundRuntime.Runtime.AcceptInbound | src/email_agent/runtime/assistant_runtime.py:269-319 | dropped without a trace, or: a first delivery is stored with pid, header and references of the mail and its body without quoted footer, inbound, with index entry and run, in the resolved thread; counters reset unless the mail is a task's own; the run enqueued once; what a repeated one stores; which rows stay when the reset or the defer raises; the call is a run of the protocol that ends in the same answer |
| InboundRuntime.Runtime.AcceptSurfaceAction | src/email_agent/runtime/assistant_runtime.py:321-399 | an id that has one run is answered with that run and its message's own thread and changes nothing, one with two raises; otherwise the action is stored with its body unstripped and no references, and nothing is reset; the call is a run of the protocol that ends in the same answer |
| AgentJob.RunRow.RecordCompletion | src/email_agent/domain/run_recorder.py:89-147 | nothing is written when it raises before its commit; when the curate defer raises everything already is |
| AgentJob.RunRow.RecordFailure | src/email_agent/domain/run_recorder.py:201-255 | status failed and the failure rows, or nothing |
| AgentJob.RunRow.NotifyRunFailed | src/email_agent/runtime/assistant_runtime.py:934-982 | each send may raise and is swallowed: the owner's notice is attempted whatever became of the end user's, and only the owner lookup escapes |
| AgentJob.RunRow.ExecuteRun | src/email_agent/runtime/assistant_runtime.py:418-731 | for every placement of faults: the final status, whether a reply is on record, the ledger rows, the notices attempted and sent, and whether it raises; the run stays open exactly when an exception escapes unrecorded |
| AgentJob.RunRow.RunAgent | src/email_agent/jobs/app.py:136-147 | the job ends terminal unless `execute_run` left the run open and the wrapper could not record it; notices are attempted exactly once for a failed run and never otherwise; at most one reply; the ledger rows; the cost incurred (estimate plus metered costs, for a run that raised the estimate of what was used up to then) booked 0, 1 or 2 times, 2 exactly after a completed run failed |
| AgentJob.WithoutFaults | src/email_agent/runtime/assistant_runtime.py:418-731 | when nothing raises, budget and agent alone decide status, reply, exception and how often the usage is booked |
| AgentJob.WithOneFault | src/email_agent/runtime/assistant_runtime.py:640-731 | a fault before the completion is on record fails the run without it, one after that fails it with it and books twice |
| AgentJob.BookedTwice | src/email_agent/domain/run_recorder.py:142-147 | an instance: a run answered while the curate defer raises ends failed, apologised for, and charged twice |
| AgentJob.BookedTotal | src/email_agent/domain/run_recorder.py:124-138 | the rows written for each outcome add up to that many copies of the reported cost |
| Pricing.EstimateNearest | src/email_agent/agent/pricing.py:76-83 | the estimate is the one multiple of $0.0001 within half of that of the exact cost, ties up |
| Pricing.Millions | src/email_agent/agent/pricing.py:63-83 | a million prompt, cached and output tokens each cost what is listed, and so does any number of millions of each together |
| Pricing.PriceList | src/email_agent/agent/pricing.py:34-60 | the listed prices of every model, known or not |
| Pricing.EstimateMonotone | src/email_agent/agent/pricing.py:76-83 | more input or output never costs less |
| Pricing.EstimateAntitoneInCache | src/email_agent/agent/pricing.py:70-83 | within the prompt, more cached tokens never cost more |
| Pricing.CacheBeyondPromptCosts | src/email_agent/agent/pricing.py:76-83 | beyond the prompt, for every model, more cached tokens never cost less, and cost more exactly when their price fills up the quantum begun by the rest |
| Pricing.SeparateVersusTotal | src/email_agent/agent/pricing.py:63-83 | pricing n calls one by one differs from pricing their total by at most (n + 1) / 2 quanta |
| Metering.SummarisePartial | src/email_agent/agent/assistant_agent.py:681-710 | the loop reports the sums of the prompt and output tokens of all captured responses, and as cost the metered costs plus the estimate of those sums if any prompt or output token was used |
| Metering.PartialIsReturned | src/email_agent/agent/assistant_agent.py:700-710 | with any prompt or output token a run that raised reports the same usage as one that returned with the same tokens |
| Metering.CompletionConserves | src/email_agent/domain/run_recorder.py:325-330 | completion rows sum to the given cost exactly when it covers the metered part; the clamp can only add |
| Metering.RowsHold | src/email_agent/domain/run_recorder.py:238-253 | the model row holds the tokens of the run, and each metered request its own provider, model, tokens and cost, in order |
| Metering.FailureConserves | src/email_agent/domain/run_recorder.py:238-253 | the same for failure rows, which omit the model row when no token was used |
| Metering.LedgerConservesReportedCost | src/email_agent/agent/assistant_agent.py:576-619 | from agent to ledger nothing is gained or lost, for returned and for raised runs, whatever the metered costs |
| Metering.ReturnedThenFailedConserves | src/email_agent/runtime/assistant_runtime.py:714-722 | a returned run booked through the failure path loses its model cost exactly when only cached tokens, worth a quantum or more, were reported |
| Metering.PriceStep | src/email_agent/agent/assistant_agent.py:641-661 | a step takes the head of its tool's queue of metered costs and touches no other queue |
| Metering.MeteredForIs | src/email_agent/agent/assistant_agent.py:633-640 | the queue of a step of kind "tool:" and a name holds the costs metered for that tool, in order, and other kinds of steps have none |
| Metering.ApplyToolCosts | src/email_agent/agent/assistant_agent.py:633-662 | first-in first-out per tool; kinds, texts and order of steps untouched; shown plus left over is what was metered |
| Budget.DaysUntilReset | src/email_agent/domain/budget_governor.py:75-76 | a refusal quotes the fewest whole days after which the reset has come |
| Budget.StepKeepsInv | src/email_agent/domain/budget_governor.py:53-81 | spent plus what admitted runs may still book stays below limit plus slots times the most one job books |
| Budget.OverspendBound | src/email_agent/jobs/app.py:215-224 | so it does in every reachable state, and under the per-assistant lock spending in the window stays below the limit plus one job |
| Budget.OverspendBoundAttained | src/email_agent/domain/budget_governor.py:68-69 | the bound is tight for every budget and number of slots |
| Budget.NeverResumes | src/email_agent/domain/budget_governor.py:58-69 | once the limit is reached, every later decision on this budget row is a refusal |
| Budget.NeverEnforcedAfterReset | src/email_agent/domain/budget_governor.py:58-69 | if it is not reached when the window ends, no later decision on this budget row is one |
| History.StepKeepsInv | src/email_agent/runtime/assistant_runtime.py:577-601 | each step of a job keeps the chain of histories and what a job was given |
| History.HistoriesChain | src/email_agent/runtime/assistant_runtime.py:878-907 | the histories of completed and quietly exited runs of a thread are prefixes of one another in completion order, whatever failed or was limited in between; a job is given one that extends them all |
| History.GivenIsThreads | src/email_agent/runtime/assistant_runtime.py:577-601 | in every reachable state a loaded job was given the history of another completed or quietly exited run of its own thread that extends those of all the others, and nothing exactly when there is none |
| History.OwnMessagesHandedOn | src/email_agent/runtime/assistant_runtime.py:878-907 | what a run was given and then its own messages are the beginning of what every later run of its thread is given, unless it was marked failed after all |
| ScheduledTasks.CommandContract | src/email_agent/agent/assistant_agent.py:505-509 | exit 1 spends the occurrence with no run and no mail; any other exit but 0, and empty output, records a failure and leaves the row due; exit 0 mails or dispatches and spends the occurrence exactly when that went through |
| ScheduledTasks.PlainContract | src/email_agent/scheduled/tick.py:206-259 | without a command the occurrence is spent exactly when the dispatch went through |
| ScheduledTasks.AuditTells | src/email_agent/scheduled/tick.py:113-259 | each outcome leaves an audit row of its own kind, a pause one more, and a row without any was not changed |
| ScheduledTasks.DueAgain | src/email_agent/scheduled/tick.py:92-99 | a due row is due again at the same time exactly when it did not fire, and then it is unchanged; a row that fired remembers `now`, and is completed or waits for the first occurrence after it |
| ScheduledTasks.CronIsNext | src/email_agent/scheduled/service.py:145-153 | the next run of a cron expression is an occurrence after `now` with no occurrence in between |
| ScheduledTasks.TaskRow.MarkFired | src/email_agent/scheduled/tick.py:286-297 | the row remembers `now`; a once-row is completed; a cron-row keeps its status and waits for the first occurrence after `now`, none being skipped |
| ScheduledTasks.TaskRow.RecordVisibleNotification | src/email_agent/scheduled/tick.py:331-371 | the count goes up by one; reaching the cap pauses a cron-row with one audit row and one notice |
| ScheduledTasks.TaskRow.Handle | src/email_agent/scheduled/tick.py:113-259 | the new row, the audit rows, the payload and the pause notice for every branch of the loop body; a row that fired waits for the first occurrence after `now` |
| ScheduledTasks.Tick | src/email_agent/scheduled/tick.py:113-261 | each claimed row is handled exactly once and on its own, with its own audit rows, payload and notice, and waits for its first occurrence after `now` exactly if it is a cron-row that fired |
| SchedulerProtocol.HandlingKeeps | src/email_agent/scheduled/tick.py:120-259 | handling a due row keeps its cap, its count of mails sent since the last reply, and each occurrence fired at most once |
| SchedulerProtocol.StepKeepsInv | src/email_agent/runtime/assistant_runtime.py:991-1051 | so does every step, also increments and resets that write what they read earlier |
| SchedulerProtocol.CapHoldsInEveryRun | src/email_agent/runtime/assistant_runtime.py:1008-1051 | in every reachable state active capped cron-rows are below their cap, occurrences were fired at most once, concurrent ticks hold disjoint rows |
| SchedulerProtocol.DirectSendCapped | src/email_agent/scheduled/tick.py:168-205 | a direct-send row with cap M mailed at most M times since the last reply, is paused at the M-th, and its pause was announced exactly once if it is paused and never otherwise |
| SchedulerProtocol.NotificationsPause | src/email_agent/runtime/assistant_runtime.py:1008-1051 | n visible notifications of agent runs without a reply raise the count by n, and pause the task if and only if it is a capped cron-row and the count has reached the cap |
| SchedulerProtocol.ReplyResets | src/email_agent/runtime/assistant_runtime.py:991-1006 | a reply sets the counts of the tasks of its assistant to 0 and changes nothing else of any task |
| SchedulerProtocol.ClaimsAre | src/email_agent/scheduled/tick.py:92-107 | a tick claims exactly the active rows whose time has come and which no other tick holds |
| SchedulerProtocol.StoppedStays | src/email_agent/scheduled/tick.py:92-99 | a paused or completed row is never active again and never claimed by a later tick |
| SchedulerProtocol.CommitEffect | src/email_agent/scheduled/tick.py:286-297 | a committed tick completes the once-rows it fired, sets the cron-rows it fired to their first occurrence after `now`, and leaves every other row as it was |
| SchedulerProtocol.SecondTickRevisitsFailures | src/email_agent/scheduled/tick.py:92-107 | a second tick at the same time claims, of the first one's rows, exactly those it did not fire |
| SchedulerProtocol.AbortEffect | src/email_agent/scheduled/tick.py:91-107 | an aborted tick changes no row and gives back its claims: a tick at the same time then claims exactly its rows and whatever was due and free besides |
| SchedulerProtocol.CommitByTick | src/email_agent/scheduled/tick.py:113-261 | the loop over the claimed rows computes exactly the rows, payload counts and notice counts of the protocol's commit, and no other row changes |
| WorkspaceTree.TargetOfKept | src/email_agent/sandbox/bashkit_environment.py:480-491 | an exported entry goes back to its own path, unless its top part is `workspace`, which is dropped |
| WorkspaceTree.TargetOfPlain | src/email_agent/sandbox/bashkit_environment.py:480-491 | a member with a plain name goes to that name below the workspace, with or without "workspace" in front |
| WorkspaceTree.TargetIs | src/email_agent/sandbox/bashkit_environment.py:480-491 | a member goes nowhere exactly when its name is absolute or has a ".." part; empty and "." parts make no difference |
| WorkspaceTree.CountsAddUp | src/email_agent/sandbox/bashkit_environment.py:282-288 | on every archive imported plus skipped counts equal the number of members |
| WorkspaceTree.RoundTrip | src/email_agent/sandbox/bashkit_environment.py:240-314 | importing an archive of a tree into a fresh environment gives exactly its directories and exportable texts, in whatever order the members come |
| WorkspaceTree.ImportedFrom | src/email_agent/sandbox/bashkit_environment.py:247-274 | whatever an import leaves was there before or comes from a member at or below it |
| WorkspaceTree.RoundTripExact | src/email_agent/sandbox/bashkit_environment.py:480-491 | the round trip holds if and only if no kept entry at the top is called `workspace` |
| WorkspaceTree.UnexportableIs | src/email_agent/sandbox/bashkit_environment.py:494-502 | a text is taken for binary exactly when it has U+FFFD or NUL, or control characters other than "\n\r\t\f\b" at more than one in twenty of its first 4096 positions |
| WorkspaceTree.ArchiveHolds | src/email_agent/sandbox/bashkit_environment.py:352-386 | the archive has every directory below the workspace, every file exactly when its text is not taken for binary by that count, with its bytes, and nothing else |
| WorkspaceTree.AddTree | src/email_agent/sandbox/bashkit_environment.py:352-386 | the recursive export lists each kept entry at or below a path exactly once and nothing else |
| BashkitEnvironment.ImportedText | src/email_agent/sandbox/bashkit_environment.py:247-274 | an existing file ends up with the text last imported to it, if any, also when the import raises half-way or mounts are present |
| BashkitEnvironment.ImportWithoutMounts | src/email_agent/sandbox/bashkit_environment.py:247-274 | without mounts the import is the one of the round trip |
| BashkitEnvironment.LookIs | src/email_agent/sandbox/bashkit_environment.py:316-334 | below a mount, and no deeper one, the host directory shows, and outside all of them the tree |
| BashkitEnvironment.Environment.constructor | src/email_agent/sandbox/bashkit_environment.py:58-100 | a restart shows the stored snapshot with the workspace directory made |
| BashkitEnvironment.Environment.ReadBytes | src/email_agent/sandbox/bashkit_environment.py:143-151 | bytes and text always agree: both missing, or the text decodes the bytes |
| BashkitEnvironment.Environment.WriteText | src/email_agent/sandbox/bashkit_environment.py:153-159 | the text is read back, every other path reads as before, the cache stays coherent and a persist task is pending |
| BashkitEnvironment.Environment.WriteBytes | src/email_agent/sandbox/bashkit_environment.py:161-168 | the same, and the bytes are read back exactly |
| BashkitEnvironment.Environment.Mkdir | src/email_agent/sandbox/bashkit_environment.py:201-208 | the new tree; no file reads differently |
| BashkitEnvironment.Environment.Exec | src/email_agent/sandbox/bashkit_environment.py:102-130 | whatever the command did, also when it timed out: coherent, no cached bytes current, a persist task pending |
| BashkitEnvironment.Environment.Rm | src/email_agent/sandbox/bashkit_environment.py:210-227 | a mount point is only unmounted; anything else goes with all below it and its cached bytes; other paths read as before |
| BashkitEnvironment.Environment.MountReadonly | src/email_agent/sandbox/bashkit_environment.py:316-334 | when it raises and what it leaves; the cache stays coherent unless, before the call, the path holds a removable entry with current cached bytes at or below it and the mount is going to raise |
| BashkitEnvironment.MountedIs | src/email_agent/sandbox/bashkit_environment.py:316-334 | after a mount: what is mounted, what went from the tree and what is new in it, and which cached bytes are left, path by path |
| BashkitEnvironment.StaleAfterFailedMount | src/email_agent/sandbox/bashkit_environment.py:320-334 | an instance: bytes written below a directory are still read after a failed mount removed their file |
| BashkitEnvironment.Environment.Snapshot | src/email_agent/sandbox/bashkit_environment.py:229-238 | the snapshot is the tree without mounts, and all mounts are back afterwards |
| BashkitEnvironment.Environment.RunPersistTask | src/email_agent/sandbox/bashkit_environment.py:441-450 | the stored snapshot is the tree of the moment the task runs; nothing a reader sees changes |
| BashkitEnvironment.Environment.Session | src/email_agent/sandbox/bashkit_environment.py:399-460 | over any interleaving of operations, raising or not, and persist tasks, up to a mount that would spoil the cache: it stays coherent, and the bytes last written at any path are read back exactly until a command runs, the file is written again or removed, or a mount at or above it is tried; if none raised, a restart brings back exactly the current tree (with the workspace directory made, should a command have removed it) |
| BashkitEnvironment.WrittenIsKnown | src/email_agent/sandbox/bashkit_environment.py:153-168 | what the session knows of a path is what was last written there, until an operation disturbs it |
| BashkitEnvironment.Environment.ImportMember | src/email_agent/sandbox/bashkit_environment.py:248-274 | which counter each member goes to, by its name and its content; the tree changes exactly as one import step says, below read-only mounts too; afterwards a text is there, or a directory, and anything else has changed nothing |
| BashkitEnvironment.Environment.ImportTar | src/email_agent/sandbox/bashkit_environment.py:240-288 | whether it raises and the tree it makes up to then; every member counted once, in the right counter; coherent exactly when, of what went in, no cached file got a different text |
| BashkitEnvironment.Environment.ExportTar | src/email_agent/sandbox/bashkit_environment.py:290-314 | an archive of the tree without mounts, with every directory, exactly the files whose text is not taken for binary (counted in characters), and nothing else; it imports back exactly unless a top entry is called `workspace`; all mounts are back afterwards |
| BashkitEnvironment.StaleAfterImport | src/email_agent/sandbox/bashkit_environment.py:272-277 | an instance: bytes written to a file are still read after an archive gave the file another text |
| MemoryUsers.StepKeepsInv | src/email_agent/memory/cognee.py:59-72 | every await-to-await step of concurrent calls keeps locks, cache and user table consistent |
| MemoryUsers.OneUserPerAssistant | src/email_agent/memory/cognee.py:138-159 | over every interleaving: setup completes at most once and before any lookup, at most one create per assistant succeeds, all calls for an assistant return the same user |
| MemoryUsers.LocksReleased | src/email_agent/memory/cognee.py:146-159 | when every call has returned or raised, every lock is free |
| MemoryUsers.Adapter.EnsureSetup | src/email_agent/memory/cognee.py:59-72 | the call is a run of the protocol; it raises exactly when setup was not done and raises |
| MemoryUsers.Adapter.FindOrCreate | src/email_agent/memory/cognee.py:146-159 | a known user is returned, an unknown one created once; cache, user table and lock afterwards |
| MemoryUsers.Adapter.UserFor | src/email_agent/memory/cognee.py:138-159 | the whole call is a run of the protocol and returns the user the table holds, or the new one |
| ConnectionRefused.ClosedSetHoldsReach | src/email_agent/web/surfaces.py:411-413 | a set of exceptions closed under nesting holds everything reachable from its members |
| ConnectionRefused.IsConnectionRefused | src/email_agent/web/surfaces.py:397-414 | ends on every finite graph, cyclic or not, and is true exactly when a refused exception is reachable |
| ConnectionRefused.LinksAre | src/email_agent/web/surfaces.py:411-413 | an exception leads to the exceptions among its arguments, its cause and its context, and to no others |
| ConnectionRefused.RefusedIs | src/email_agent/web/surfaces.py:397-410 | an exception is refused exactly when its number is 61 or 111 or its text holds one of the two phrases |

## Left out

- SQL, sessions, asyncio and the job queue: tables are maps, commits are atomic steps, row locks are ownership by a tick, the queue is a multiset with a lock per assistant.
- How an address is routed to an assistant (the result is a parameter), attachments and subjects of stored messages, subject normalisation, and the HTML parts of replies and footers.
- Language model calls, mail, GitHub, calendar and search providers, Docker, document tools: nondeterministic results only.
- Admin UI, CLI, settings, migrations, prompts, dev-only job recovery, surface tokens: plumbing without a hard property.
- Exactly-once charging, rollover of the budget period, fire-once under a crash between a dispatch and the tick's commit, and an empty-thread-free duplicate are not claimed, because the code does not provide them.
- The In-Reply-To fallback of section 3.6.4 of RFC 5322 for a parent without References is not modelled; `Answers` describes mails that carry References.
- InboundRuntime.Runtime.AcceptInbound: one uninterrupted call; interleavings are in InboundProtocol, and those of the counter reset, which reads and writes in one transaction, in SchedulerProtocol.
- InboundProtocol.ExactlyOneRun: takes ids of rows, made by uuid4, to be fresh.
- InboundProtocol.SurfaceActionWithReplyId: the check for an existing run that opens a surface call, and its resolving, are separate steps, so the protocol also lets a call resolve that a check would have answered.
- AgentJob.RunRow.ExecuteRun: the awaited calls that only prepare the prompt are one fault; cancellation, `BaseException` and a commit that raises although it took effect are not modelled; a retried job, which would start from a row that is not queued, neither.
- AgentJob.RunRow.RunAgent: the clause on booked cost is for agents that report cached tokens as part of the prompt tokens; Metering.ReturnedThenFailedConserves says what happens otherwise.
- Metering: steps filtered because they were recorded live, and the usage ledger's rounding of amounts to four decimals, are not modelled; amounts are whole quanta.
- Pricing: the 28-digit context precision of `Decimal` is taken to be exact.
- Budget.OverspendBound: spending is what is booked while the budget row stays as it is; an operator who edits limit or window starts a new instance.
- History.HistoriesChain: takes agents to return messages that extend the history they were given, and completion times of one assistant's runs to increase strictly; serialisation of messages is the identity.
- ScheduledTasks.TaskRow.Handle: the cron parser is any function that gives the first later occurrence (the same one from every moment up to it); invalid expressions are rejected when a task is created and not modelled; a command runner that raises aborts the tick, which is a step of SchedulerProtocol.
- ScheduledTasks.Tick: the order in which rows are claimed, by next run and id, is whatever order the rows are given in.
- SchedulerProtocol.AbortEffect: mails sent and runs queued by a tick that aborts are not rolled back by the code and are not counted in the logs.
- SchedulerProtocol: deadlocks and lost connections are aborts.
- WorkspaceTree: paths are sequences of names, so the string-level normalisation of paths and paths with `..` (other than in tar members) are not modelled; member names are given as the parts of a pure posix path; times and sizes of members are left out.
- WorkspaceTree.RoundTrip: UTF-8 is any codec whose decoders read back what its encoder writes.
- BashkitEnvironment.Environment.ImportTar: a member whose content cannot be extracted counts as another entry; a `mkdir -p` that raises is taken to make no directory.
- BashkitEnvironment.Environment.Session: the claim on persistence is for sessions in which nothing raised, since WriteText, for one, may make parent directories and then raise with no persist task pending. Imports and exports, used by the command line only, are not among its operations.
- BashkitEnvironment.Environment.RunPersistTask: taking the snapshot and storing it are one step, as nothing is awaited in between.
- BashkitEnvironment.Environment.ExportTar: for a tree in which ancestors are directories and names are ordinary.
- MemoryUsers: deleting an assistant while a call is in flight, and other processes creating the same user.
- ConnectionRefused.IsConnectionRefused: messages are taken already lower-cased.
