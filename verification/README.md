# Verification of the automation core

This project models the part of the backend that decides, authorises, limits, sends, confirms and recovers email
effects, with the bounded history and text logic it rests on, the campaign approval that feeds it and the login
throttle. Run `dafny verify dfyconfig.toml` to check everything.

Code that updates rows in place is a class or a method with loops, proved against a function of the old state; that
function is what the lemmas about whole runs speak of. The files named `..._rows.dfy`, with `task_requests.dfy`,
`admission.dfy`, `authorizing.dfy`, `departing.dfy`, `settling.dfy` and `selecting.dfy`, say of each such function, in
terms of the rows alone, when it acts and what it leaves. One `transaction.atomic` block is one atomic step, `None` is a
transaction that raised and rolled back, and times are integers in microseconds.

| files | what they model |
|---|---|
| `human_tasks.dfy`, `task_requests.dfy` | human tasks and the pause flags they raise |
| `capacity.dfy`, `admission.dfy` | reservations: the sliding 24 hours of a conversation, the shared daily budget of a workspace |
| `delivery.dfy`, `delivery_store.dfy` | the delivery transactions, as functions and as in-place methods |
| `delivery_runs.dfy`, `delivery_invariant.dfy`, `delivery_safety.dfy`, `delivery_frames.dfy` | every interleaving of transactions, provider calls and crashes, and what none of them breaks |
| `delivery_answers.dfy`, `authorizing.dfy`, `departing.dfy`, `settling.dfy`, `protocol_rows.dfy`, `reachable.dfy` | what each transaction answers and leaves, row by row and in both directions, and in every state a run reaches |
| `delivery_serial.dfy`, `recovery.dfy`, `sweep.dfy`, `selecting.dfy`, `late_answer.dfy` | runs with one worker per message: the sweep forgets nothing; and the run that shows why the assumption is needed |
| `rate_gate.dfy`, `topic_modes.dfy`, `mode_change.dfy` | real sends are bounded, and what a change of a topic's mode does to the daily bound |
| `notifications.dfy`, `alert_rows.dfy` | alert emails, the same protocol in small |
| `scheduled.dfy`, `follow_up_desk.dfy`, `follow_up_spacing.dfy`, `early_follow_ups.dfy`, `follow_up_rows.dfy` | follow-up plans, due dates and attempts; a week between two sends, and the two histories that break it |
| `history.dfy`, `readers.dfy`, `memory.dfy`, `shown_history.dfy`, `memory_store.dfy`, `memory_rows.dfy`, `context.dfy` | limited queries, the verifiable memory, what it and the recent messages offer together, its versions, and greedy packing |
| `regions.dfy` | new text, signature and quoted history, and the addresses found in them |
| `knowledge.dfy`, `knowledge_rows.dfy`, `grounding.dfy` | fact revisions, and the grounding of replies over whole delivery runs |
| `approval.dfy`, `approval_desk.dfy`, `audience_runs.dfy`, `first_approval.dfy`, `audience_gaps.dfy`, `approval_rows.dfy`, `enrolment_rows.dfy` | preparing and approving a campaign; every run from its search to its first approval, and two runs in which audience and messages part |
| `login_throttle.dfy`, `login_races.dfy`, `login_rows.dfy` | the login counters behind the login view, with attempts one at a time and with attempts that overlap |
| `common.dfy` | optional values, time, the local calendar day |

## What the proofs found

- `_record_outbound_error` overwrites any state. With two overlapping provider calls for one proposal, a late hard
  error leaves an acknowledgement queued that the sweep never delivers (`LateAnswer.LateAnswerStrandsAnAck`), and that
  is the only way an error strands a message (`Recovery.ErrorStrandsExactlyQueuedAck`). At-most-once and the redirect
  order hold regardless.
- With attempts one at a time, the half-hour bound of the login throttle is 2 * limit - 2 failures, 8 for a pair and 38
  for an address, unless an unlock has just left an open window with nothing in it; then one more gets through
  (`LoginThrottle.BoundedExactly`, `LoginThrottle.NineFailuresAfterAnUnlock`). Attempts that overlap between check and
  record have no bound of their own (`LoginRaces.OverlapsHaveNoBound`); with at most m of them it is
  2 * (limit + m - 1) (`LoginRaces.OverlappingHalfHour`). A late record may even take a running lock away
  (`LoginRaces.LateFailureLiftsTheLockExactly`).
- The first approval of a campaign authorises exactly the audience it stores (`FirstApproval.FirstApprovalIsExact`). The
  per-message path checks no stored hash: started between the transaction that makes a restored business eligible and
  the refresh of the audience, it lists an enrolment without message
  (`AudienceGaps.StartMayListAnEnrolmentWithoutMessage`). And an approved campaign that is paused may be sent back to
  search; its second approval may leave a queued message outside the audience
  (`AudienceGaps.SecondApprovalMayReachOutsideTheAudience`).
- A week between two follow-ups of one plan is broken by exactly three kinds of steps: a snooze that ends before it, an
  old interaction on a plan without due date, and the completion of a send that a later one has overtaken
  (`FollowUpSpacing.SpacingIsKeptExactly`). Completing looks at no attempt state and compares no dates, and a duplicate
  delivery completes a sent message again: the plan then forgets its latest send (`EarlyFollowUps.SnoozeMaySendEarly`,
  `EarlyFollowUps.LateCompletionMaySendEarly`).
- The daily gate counts scheduled messages by the mode their topic has now. The daily limit holds over every run in
  which no topic is set to review while one of its messages that no person released is in flight or was confirmed on
  that day (`TopicModes.WorkspaceSendsBounded`); that step, and no other, hides a message from the gate
  (`TopicModes.StepKeepsSeenExactly`), and then one more may leave (`ModeChange.ModeChangeLetsOneMoreLeave`).
- The recent messages leave out the message being answered and its mandatory predecessors, the memory does not; and the
  memory stops at the first source that does not fit. The two cover the 18 newest messages if and only if none of the
  six newest is left out and all sources fit (`ShownHistory.OfferedHistory`). Answering the newest of eight messages
  repeats the two oldest (`Readers.ReadersOrdinarilyOverlap`); with long messages the seventh and the eighth newest are
  in neither (`ShownHistory.RanksSevenAndEightAreMissing`).
- An as-of read at an instant between the two clock readings of one memory refresh sees no version at all
  (`MemoryStore.InstantInsideARefreshSeesNothing`).

`docs/STATE_MACHINES.md` lets a reconciling message and a reconciling alert go back to the queue; the code fails them
instead. It also lets only a campaign without approval go from paused back to search; the code lets any
(`campaigns/services.py:117-121`, `api/campaigns.py:501-509`). The model follows the code.

## Model

| member | source | states |
|---|---|---|
| HumanTasks.OpenKeepsConsistent | backend/src/apps/automation/services.py:296-365 | opening keeps the pause flags exactly in step with the open tasks, leaves an open task for the contact, and closes nothing |
| HumanTasks.CloseOpenKeepsConsistent | backend/src/apps/automation/services.py:376-434 | closing lifts a pause only when the last open task behind it is gone, and touches no other flag |
| HumanTasks.ResolveUpToEffect | backend/src/apps/automation/services.py:437-475 | the bulk resolve closes exactly the reply reviews of that inbound message and keeps the flags exact |
| HumanTasks.SuspensionMirrorsOpenTasks | backend/src/apps/automation/services.py:296-475 | over every sequence of operations a conversation is suspended exactly when it has an open task, a contact exactly when it has an open task without conversation |
| HumanTasks.GatesAskForOpenTasks | backend/src/apps/automation/execution.py:402-417 | the reply gate and the scheduled gate are clear only when the contact has no open task, whatever happened before |
| HumanTasks.TaskDesk.OpenHumanTask | backend/src/apps/automation/services.py:296-365 | the in-place operation leaves exactly the specified rows and flags, keeps them consistent, adds the one row that carries all of the request when no task repeats it and none when one does, and changes nothing when it raises |
| HumanTasks.TaskDesk.CloseHumanTask | backend/src/apps/automation/services.py:396-434 | a missing note is refused without change, a closed task stays as it is, an open one is closed and the pause lifted if it was the last |
| HumanTasks.TaskDesk.ResolveReplyReviewTasks | backend/src/apps/automation/services.py:437-475 | the loop reaches the specified state and counts what it resolved |
| TaskRequests.OpensExactly | backend/src/apps/automation/services.py:296-365 | a request is accepted if and only if contact and conversation are known and belong together and either exactly one open task repeats it, or none does and no other open task of its inbound message gives the same reason |
| TaskRequests.OpenedRows | backend/src/apps/automation/services.py:318-365 | an accepted request adds one open row with its contact, conversation, inbound message, kind and reason, or none when a task repeats it; only the flag of its conversation, or else of its contact, goes up |
| TaskRequests.ClosedRows | backend/src/apps/automation/services.py:376-434 | closing changes the status of one row and lifts its flag if and only if no other open task keeps it up |
| TaskRequests.ReviewEndsWithTheReply | backend/src/apps/automation/services.py:437-475 | a review opened for an inbound message is resolved by the reply to it, none of that message stays open, and its conversation resumes if and only if no other open task of it is left |
| TaskRequests.ReplyGateExactly | backend/src/apps/automation/execution.py:402-417 | the gate of a reply is clear if and only if the contact has no open task and the conversation is the contact's |
| Capacity.FoundIsInTable | backend/src/apps/automation/execution.py:482-488 | the lookup finds a reservation exactly when the table holds one for that source |
| Capacity.ReserveAllAdmitted | backend/src/apps/automation/execution.py:482-523 | every row of every reservation history fitted both limits when it was added, and no source has two rows |
| Capacity.ConversationSlidingWindow | backend/src/apps/automation/execution.py:482-523 | in any closed 24 hours the slots reserved for one conversation stay within its limit, in whatever order timestamps arrive |
| Capacity.SharedDailyBudget | backend/src/apps/automation/scheduled.py:758-788 | replies and automatic scheduled contacts together reserve at most the workspace limit on one local date |
| Capacity.ReservationTable.ReserveRateCapacity | backend/src/apps/automation/execution.py:482-523 | without a reservation it grants exactly what fits both limits and adds one row with workspace, source, instant, date and slots; with one it grants exactly the same number of slots; every row stays within both limits |
| Capacity.ReservationTable.ReserveScheduledCapacity | backend/src/apps/automation/scheduled.py:758-788 | its sum over the rows of the day is the shared budget; without a reservation it grants one slot exactly when the day has one left, and adds that row |
| Admission.DecisionIsAdmittedExactly | backend/src/apps/automation/execution.py:482-523 | a decision without reservation gets one if and only if the slots of its conversation in the last 24 hours and of its workspace on the day, with its own, stay within the limits; the new row says for whom, when, on which day and how much |
| Admission.DecisionIsKeptExactly | backend/src/apps/automation/execution.py:488-490 | a decision with a reservation is granted again if and only if it asks for the same number of slots, and no row is added |
| Admission.AttemptIsAdmittedExactly | backend/src/apps/automation/scheduled.py:758-788 | an attempt is granted if and only if it has a reservation or the day has a slot left, and has one row after |
| Admission.TotalIsTheSum | backend/src/apps/automation/execution.py:493-508 | the totals in these conditions are the sums over the rows |
| DeliveryStore.AutomationStore.RejectDecisionLocked | backend/src/apps/automation/execution.py:453-479 | rejects the decision, fails the message unless it is sent, opens the review; other rows stay, and nothing changes when that raises |
| DeliveryStore.AutomationStore.AuthorizeReplyDecision | backend/src/apps/automation/execution.py:666-826 | the early returns, refusals, reservation and new message lead to exactly the specified tables, rolled back when it raises; its first message is added if and only if nothing objects and its slots fit (`Authorizing.GetsThrough`) |
| DeliveryStore.AutomationStore.AuthorizeRedirectAck | backend/src/apps/automation/execution.py:1242-1350 | an acknowledgement is queued only beside a sent proposal of a decision still in progress, else refused or left; no other row changes |
| DeliveryStore.AutomationStore.PrepareOutboundEffect | backend/src/apps/automation/execution.py:1588-1747 | a worker gets the effect if and only if the tables and the verdicts let the message leave (`Departing.AutomaticMayLeave`, `Departing.ScheduledMayLeave`); at most that row changes, and a sent one never |
| DeliveryStore.AutomationStore.ConfirmOutboundSent | backend/src/apps/automation/execution.py:1812-1936 | only a message in flight becomes sent, and only that row changes; the decision completes, executes or goes to a person by the thread it landed in |
| DeliveryStore.AutomationStore.RecordOutboundError | backend/src/apps/automation/execution.py:1947-1988 | writes reconciling or failed in that row whatever its state was, and hands a failed automatic message to a person |
| Authorizing.LetsThroughExactly | backend/src/apps/automation/execution.py:666-826 | authorising adds a message if and only if the decision is eligible, live and without message, no verdict objects, its contact has no open task, the conversation is the contact's, and its slots are reserved or fit |
| Authorizing.AuthorizesExactly | backend/src/apps/automation/execution.py:666-826 | every refusal carries the first objection in the order of the checks, a manual reply or a failed policy its own end state, and each answer is one exact set of tables |
| Authorizing.AcknowledgesExactly | backend/src/apps/automation/execution.py:1242-1294 | an acknowledgement is due beside a sent proposal of a decision in progress that has none yet; a due one is queued if and only if nothing objects, else the decision goes to a person |
| Departing.AutomaticLeavesExactly | backend/src/apps/automation/execution.py:1479-1525 | an automatic message leaves if and only if it is queued, none of the five verdicts objects, its decision is live with the matching action, its contact has no open task, its reservation has the right slots, the proposal of an acknowledgement is sent, and both counts leave room |
| Departing.AutomaticAnswers | backend/src/apps/automation/execution.py:1588-1747 | what becomes of a queued automatic message and its decision, table by table, with the first objection in the order of the checks |
| Departing.ScheduledLeavesExactly | backend/src/apps/automation/execution.py:1378-1476 | a scheduled message leaves if and only if it is queued, its contact has no open task, its topic's present mode finds a reservation or a release by a person, no verdict objects, and under an automatic topic the day has room |
| Departing.ScheduledAnswers | backend/src/apps/automation/execution.py:1588-1747 | what becomes of a queued scheduled message: ineligible, failed, or on its way |
| DeliveryAnswers.RoomExactly | backend/src/apps/automation/execution.py:526-598 | the final rate check refuses if and only if one message more than those in the air or sent in the 24 hours of the conversation, or on the day of the workspace, exceeds a limit |
| Settling.ConfirmsAnAnswer | backend/src/apps/automation/execution.py:1812-1936 | a confirmed reply or acknowledgement completes its decision if it landed in the thread it answers and else goes to a person; the message is sent either way |
| Settling.ConfirmsAProposal | backend/src/apps/automation/execution.py:1773-1936 | a confirmed proposal takes a thread of its own for its contact, or goes to a person when it has none, shares the inbound message's, or the thread is another contact's |
| Settling.ConfirmsAScheduled | backend/src/apps/automation/execution.py:1812-1936 | a confirmed scheduled message takes or keeps a thread of its contact, or opens a review of the contact |
| Settling.RecordsAnError | backend/src/apps/automation/execution.py:1947-1988 | an ambiguous answer leaves any known message to be looked up a minute later, a hard one fails it and sends the decision behind it to a person |
| Settling.ImportsAReply | backend/src/apps/mailbox/sync.py:153-207 | what the import of a person's own reply leaves in decisions, messages and tasks |
| Settling.CreatesADraft | backend/src/apps/automation/scheduled.py:791-1067 | what creating a scheduled message leaves, by the mode of its topic and the budget of the day |
| DeliveryInvariant.AuthorizeReplyEffect | backend/src/apps/automation/execution.py:666-826 | authorising starts no attempt, confirms nothing, completes nothing, only appends to the reservations |
| DeliveryInvariant.AuthorizeAckEffect | backend/src/apps/automation/execution.py:1242-1294 | either nothing is owed differently, or exactly the acknowledgement of a decision awaiting it is added |
| DeliveryInvariant.PrepareEffect | backend/src/apps/automation/execution.py:1588-1747 | an effect is given only to a queued row that every check allows, and moves that row and its decision only |
| DeliveryInvariant.ConfirmEffect | backend/src/apps/automation/execution.py:1812-1936 | a confirmation turns that one row into sent and the decision into completed, executing or human-required by its thread |
| DeliveryInvariant.RecordErrorEffect | backend/src/apps/automation/execution.py:1947-1988 | an error never starts, sends or completes anything |
| DeliveryInvariant.ManualReplyEffect | backend/src/apps/mailbox/sync.py:153-207 | a manual reply never starts, sends or completes anything automatic |
| DeliveryInvariant.CreateScheduledEffect | backend/src/apps/automation/scheduled.py:791-1067 | creating a scheduled message, by the mode its topic has then, starts nothing and keeps the reservations admitted |
| DeliveryInvariant.SmallWritersEffect | backend/src/apps/automation/scheduled.py:1129-1187 | releasing or withdrawing a scheduled draft starts, sends and completes nothing |
| DeliveryInvariant.CancelCampaignEffect | backend/src/apps/campaigns/services.py:741-748 | cancelling a campaign withdraws queued automatic replies and starts, sends and completes nothing |
| DeliveryInvariant.StepKeepsInv | backend/src/apps/automation/execution.py:1588-2040 | every transaction, provider answer and crash keeps rows, reservations, workers and history in agreement |
| DeliveryInvariant.RunKeepsInv | backend/src/apps/automation/execution.py:1588-2040 | and so does every run |
| ProtocolRows.AnswersExactly | backend/src/apps/automation/execution.py:1991-2135 | an accepted message is confirmed, an ambiguous answer leaves it to be looked up, a hard error and a message not found fail it; then the worker is free, and the confirmation is logged exactly when it commits on a message in the air |
| ProtocolRows.CallsAreLogged | backend/src/apps/automation/execution.py:2014-2040 | a call to the provider begins with a hand-over of the effect and is logged then, and nothing else is logged as one |
| DeliverySafety.HandedOverAtMostOnce | backend/src/apps/automation/execution.py:1588-1747 | in every interleaving a message is handed to the provider at most once, and a decision causes at most as many hand-offs as the slots it reserved |
| DeliverySafety.RedirectOrder | backend/src/apps/automation/execution.py:1242-1294 | an acknowledgement is handed over only after its proposal was confirmed, exists only after one was tied to a thread, and a decision completes only after its own message was confirmed in its thread |
| DeliverySafety.RunsStayWithinCapacity | backend/src/apps/automation/execution.py:482-523 | the reservations of every delivery run obey the sliding window and the daily budget |
| DeliverySafety.NothingLeavesWhileATaskIsOpen | backend/src/apps/automation/execution.py:1378-1525 | in every run, whenever a message leaves the queue its contact has no open human task |
| Reachable.AutomaticStartsExactly | backend/src/apps/automation/execution.py:1588-1747 | in every run, the next preparation of an automatic message starts it if and only if those conditions hold of the tables the run has reached |
| Reachable.ScheduledStartsExactly | backend/src/apps/automation/execution.py:1588-1747 | the same for a scheduled message |
| Reachable.ReplyIsQueuedExactly | backend/src/apps/automation/execution.py:666-826 | in every run, authorising a decision queues its first message if and only if nothing objects and its slots fit |
| DeliverySerial.SerialStepKeepsInv | backend/src/apps/automation/execution.py:1991-2135 | with one worker per message a held message stays in flight and workers stay apart |
| DeliverySerial.SerialStepKeepsWorkers | backend/src/apps/automation/execution.py:1991-2135 | with one worker per message only leaving the queue puts a message in flight, and a sent row is final |
| Sweep.RecoverAutomationActions | backend/src/apps/automation/tasks.py:72-103 | the sweep queues exactly the owed jobs for decisions, messages and alerts, each once, completes every follow-up attempt whose message has ended, one after the other and nothing else, and counts both; it stops early only on a refused human task |
| Sweep.ReportCompletions | backend/src/apps/automation/scheduled.py:1266-1277 | after the completions no authorised attempt has an ended message; a sent one is recorded and its plan has heard of a send, a failed one waits for a person |
| Selecting.ExecutesExactly | backend/src/apps/automation/execution.py:2138-2148 | executed are exactly the live decisions that are allowed, authorised or under way |
| Selecting.ReconcilesExactly | backend/src/apps/automation/execution.py:2151-2172 | looked up are exactly the messages in the air for two minutes and those whose next look-up is due |
| Selecting.DeliversExactly | backend/src/apps/automation/tasks.py:72-103 | delivered are exactly the queued scheduled messages whose next attempt is due or has no date |
| Recovery.RunNoOrphans | backend/src/apps/automation/execution.py:2138-2172 | in every serial run a queued automatic message has a pending decision, an acknowledgement a sent proposal, and an owed acknowledgement a decision in progress or a person |
| Recovery.SweepCoversEveryMessage | backend/src/apps/automation/execution.py:2138-2172 | every queued, sending or reconciling message is a job once its deadline passes; for a queued automatic message the job is its decision, which delivers that message |
| Recovery.SweepCoversOwedAcks | backend/src/apps/automation/execution.py:2043-2079 | a sent proposal still owed its acknowledgement is a job, and executing it goes on to authorise the acknowledgement |
| Recovery.ErrorStrandsExactlyQueuedAck | backend/src/apps/automation/execution.py:1947-1988 | recording an error strands a message if and only if it hits a proposal whose acknowledgement is queued |
| LateAnswer.LateAnswerStrandsAnAck | backend/src/apps/automation/execution.py:1947-1988 | a concrete run, with a lookup overlapping an open send, ends with a queued acknowledgement that no sweep delivers |
| RateGate.ConversationSendsBounded | backend/src/apps/automation/execution.py:526-567 | in any closed 24 hours the automatic messages of one conversation confirmed as sent number at most its limit, in flight across the start or not |
| TopicModes.StepKeepsSeenExactly | backend/src/apps/automation/execution.py:568-598 | that the daily gate sees every message of the day that no person released survives a step if and only if the step does not set a topic to review over such a message |
| TopicModes.WorkspaceSendsBounded | backend/src/apps/automation/execution.py:1701-1724 | over every run of such steps, with a clock that does not go back, the automatic replies and unreleased scheduled messages of a workspace confirmed on one local day number at most its limit |
| ModeChange.ModeChangeLetsOneMoreLeave | backend/src/apps/automation/scheduled.py:117-196 | a concrete run with good clocks and one worker, whose one mode change sets a topic to review over a message sent on that day: a second unreleased message leaves under a limit of one |
| Notifications.AlertHandedOverAtMostOnce | backend/src/apps/automation/notifications.py:141-189 | in every interleaving an alert email is handed over at most once |
| Notifications.AlertIsFinalOrPickedUp | backend/src/apps/automation/notifications.py:192-223 | an alert is sent for good, or failed, or taken up by the next sweep after two minutes, however workers overlap |
| Notifications.AlertDesk.PrepareNotification | backend/src/apps/automation/notifications.py:141-189 | gives an effect exactly for a pending alert that passes its preflight, and updates that row only |
| Notifications.AlertDesk.FinishNotification | backend/src/apps/automation/notifications.py:192-223 | a sent alert is never rewritten |
| AlertRows.TakesExactly | backend/src/apps/automation/notifications.py:141-189 | only a pending alert is taken, and leaves if its preflight passes; no other row changes |
| AlertRows.FinishesExactly | backend/src/apps/automation/notifications.py:192-223 | a sent alert is final; any other takes the state it is given, and the time when that is sent |
| AlertRows.CallsAreLogged | backend/src/apps/automation/notifications.py:226-283 | a call to the provider begins with a hand-over of the alert and is logged then, and nothing else is |
| Scheduled.NextDueForApproval | backend/src/apps/automation/scheduled.py:79-96 | the due date is one of the known candidates and not before any of them |
| Scheduled.DueAfterInteraction | backend/src/apps/automation/scheduled.py:618-627 | the due date after an interaction is the latest of the three candidates |
| FollowUpDesk.Desk.CancelOpenAttempts | backend/src/apps/automation/scheduled.py:304-343 | the two bulk updates withdraw exactly the open attempts before the bound, and the messages that had not left |
| FollowUpDesk.Desk.NextDue | backend/src/apps/automation/scheduled.py:79-96 | the list of candidates built step by step gives the specified due date |
| FollowUpDesk.Desk.RescheduleTopicApprovals | backend/src/apps/automation/scheduled.py:99-114 | the loop moves exactly the active plans of the topic and withdraws exactly their open attempts; other plans and messages that have left stay |
| FollowUpDesk.Desk.RecordGenuineContactInteraction | backend/src/apps/automation/scheduled.py:605-641 | every plan of the contact ends with the later of the two interactions, keeps state, snooze and last send, and moves its due date; exactly the attempts before the new due date are withdrawn; other plans and messages that have left stay |
| FollowUpDesk.Desk.PickPlans | backend/src/apps/automation/scheduled.py:644-663 | keeps the first candidate of each contact and no other, in the order of the query |
| FollowUpDesk.Desk.CreateDueScheduledAttempts | backend/src/apps/automation/scheduled.py:644-696 | at most one plan per contact is taken, the first of the query; attempts are created for those still due, earlier ones stay, and exactly the attempts still to be processed are handed on, in order |
| FollowUpDesk.HandsOnExactly | backend/src/apps/automation/scheduled.py:664-696 | handed on are exactly the attempts of picked plans that are active, awake and due under an active topic, for their date, unless they are further on |
| FollowUpDesk.Desk.CompleteScheduledContactAttempt | backend/src/apps/automation/scheduled.py:1190-1263 | a sent message moves attempt and plan, a failed one opens a human task or rolls back when that is refused, anything else changes nothing; other plans and attempts stay |
| FollowUpRows.InteractionExactly | backend/src/apps/automation/scheduled.py:605-641 | after an interaction every plan of the contact has a last interaction that is at least the new one and the old one, and is one of the two; state, snooze and last send stay, and so do the plans of others |
| FollowUpRows.InteractionWithdraws | backend/src/apps/automation/scheduled.py:605-641 | exactly the open attempts of those plans that are due before the new date are withdrawn |
| FollowUpRows.LaterApprovalsWait | backend/src/apps/automation/scheduled.py:79-96 | over every run of the follow-up services after an interaction, no approval of a plan of that contact is due before the interaction plus the cadence |
| FollowUpRows.RunRemembers | backend/src/apps/automation/scheduled.py:605-641 | no step of any run lowers the last interaction of a plan |
| FollowUpRows.DueForApprovalExactly | backend/src/apps/automation/scheduled.py:79-96 | an approval is due at the latest of the dates known, the topic's, a cadence after the last interaction and the last send, and the end of a snooze, and a cadence from now when none is known |
| FollowUpRows.ReschedulesExactly | backend/src/apps/automation/scheduled.py:99-114 | exactly the active plans of the topic move, to the new due date or to none, and lose their open attempts |
| FollowUpRows.ApprovesAPlan | backend/src/apps/automation/scheduled.py:346-435 | a later approval sets state and due date, ends a snooze, and withdraws the open attempts when anything changed |
| FollowUpRows.ActivatesExactly | backend/src/apps/automation/scheduled.py:509-571 | a plan is activated if and only if email and topic allow it and the contact is eligible or the plan asleep; its due date is kept or found |
| FollowUpRows.SnoozesExactly | backend/src/apps/automation/scheduled.py:574-602 | a snooze into the future sets both dates and withdraws the open attempts, one into the past is refused |
| FollowUpRows.CompletesExactly | backend/src/apps/automation/scheduled.py:1190-1263 | what a completion leaves in plan and attempt, for a sent message, one that ended otherwise, and anything else |
| FollowUpSpacing.SpacingIsKeptExactly | backend/src/apps/automation/scheduled.py:79-641 | a step leaves every due date a week after the latest send on record if and only if it is not a snooze before that date, nor an old interaction on a plan without due date, nor the completion of an overtaken send |
| FollowUpSpacing.CompletionIsLatestExactly | backend/src/apps/automation/scheduled.py:1190-1238 | completing a send leaves the plan with its latest send on record if and only if the send is not older than the one the plan knows |
| FollowUpSpacing.RecentInteractionFits | backend/src/apps/automation/scheduled.py:605-641 | an interaction not older than the last send never breaks the spacing |
| FollowUpSpacing.StepKeepsInvExactly | backend/src/apps/automation/execution.py:1410-1419 | the invariant survives a step if and only if the step keeps the spacing and moves no due date under an open hand-off |
| FollowUpSpacing.FollowUpsAreAWeekApart | backend/src/apps/automation/scheduled.py:1231-1238 | over every run of such steps any two sends of one plan are at least seven days apart |
| EarlyFollowUps.SnoozeMaySendEarly | backend/src/apps/automation/scheduled.py:574-602 | a concrete history, with a snooze and otherwise only steps that keep the spacing, sends two messages of one plan a microsecond apart |
| EarlyFollowUps.LateCompletionMaySendEarly | backend/src/apps/automation/execution.py:2013-2021 | a concrete history, with one repeated completion and otherwise only steps that keep the spacing, sends two messages of one plan in the same instant |
| History.NewestIsMerge | backend/src/apps/automation/memory.py:54-72 | sorting two streams together is merging them sorted |
| History.LimitedQueriesLoseNothing | backend/src/apps/automation/memory.py:38-76 | with distinct timestamps the newest n of the two streams cut at n or more are the newest n of the whole history |
| History.SourcesAreRanks7To18 | backend/src/apps/automation/memory.py:38-76 | with distinct timestamps the memory sources are ranks 7 to 18 of the whole history, oldest first |
| Readers.RecentAreNewestVisible | backend/src/apps/automation/context.py:196-267 | the recent messages are the six newest of those that its queries and its loop keep |
| Readers.ReadersCoverTheNewest | backend/src/apps/automation/context.py:196-267 | for any number of sources that the memory keeps: each reader is exact over its own history, only sources not kept can be missed, the 18 newest are covered if and only if none of the six newest is left out and all sources are kept, and the condition under which nothing is repeated is exact |
| Readers.ReadersOrdinarilyOverlap | backend/src/apps/automation/context.py:404-410 | answering the newest of eight messages, with its parent mandatory, the two oldest are among the recent messages and the memory's sources |
| ShownHistory.AllFitExactly | backend/src/apps/automation/memory.py:79-98 | the summary keeps all sources if and only if every step of it fits in the limit |
| ShownHistory.OfferedHistory | backend/src/apps/automation/context.py:196-298 | the same with the memory as it is stored: the summary's oldest sources that fit |
| ShownHistory.RanksSevenAndEightAreMissing | backend/src/apps/automation/memory.py:79-98 | for every history of 18 or more long messages with nothing left out of the recent ones, the seventh and the eighth newest are offered by neither reader |
| ShownHistory.LongMessagesAreNotCovered | backend/src/apps/automation/memory.py:79-98 | such a history exists |
| Memory.SourcesAreGenuine | backend/src/apps/automation/memory.py:38-76 | each source is the inbound or outbound row at its key: of this contact, human and not robotic, or sent, with that row's date and text; at most twelve, none twice, even with equal timestamps |
| MemoryRows.StreamsHoldExactly | backend/src/apps/automation/memory.py:38-72 | the two streams hold every such row of the contact and nothing else |
| MemoryRows.SourcesExactly | backend/src/apps/automation/memory.py:38-76 | with distinct timestamps a message of the contact is a source if and only if at least six and fewer than eighteen of the contact's messages are newer |
| Memory.SummaryIsStable | backend/src/apps/automation/memory.py:79-98 | the summary covers a prefix of the sources, fits, and summarising that prefix alone gives it again |
| Memory.SummaryForSources | backend/src/apps/automation/memory.py:79-98 | the loop with its break builds exactly that prefix, within the limit |
| Memory.VerifiesExactlyWhileUnchanged | backend/src/apps/automation/memory.py:189-211 | a memory verifies later if and only if every source is still there with the same full text and date, and then it fits |
| MemoryStore.RefreshedMemoryVerifies | backend/src/apps/automation/memory.py:214-275 | a memory just refreshed verifies within 4000 characters, and refreshing again over the same messages writes nothing |
| MemoryStore.VersionsIncrease | backend/src/apps/automation/memory.py:214-275 | over every run of refreshes versions strictly increase and at most one memory is active |
| MemoryStore.AsOfAgreesWithHistory | backend/src/apps/automation/context.py:270-298 | after any later refreshes the as-of read for an instant returns exactly the memory active at it, or none |
| MemoryStore.InstantInsideARefreshSeesNothing | backend/src/apps/automation/context.py:270-298 | an instant between the two clock readings of a refresh that replaces a memory sees neither version |
| MemoryStore.MemoryShelf.RefreshContactMemory | backend/src/apps/automation/memory.py:214-275 | supersedes, keeps or appends exactly as specified, and returns an active row that matches the messages and names only messages of its contact |
| MemoryRows.BuildsExactly | backend/src/apps/automation/memory.py:79-118 | a memory is built if and only if an entry fits; it holds the summary, the identifiers of its entries, and the digest of the summary with the full texts behind it |
| MemoryRows.RefreshesExactly | backend/src/apps/automation/memory.py:214-275 | without a memory to write the current version is superseded, with the same one nothing changes, and else the next version is added and the current one superseded |
| MemoryRows.AsOfExactly | backend/src/apps/automation/context.py:270-298 | an as-of read returns the newest version held at the instant, or nothing when none was |
| Context.PackedAndSkipped | backend/src/apps/automation/context.py:404-438 | every element offered is kept or skipped, once |
| Context.PackedOneMore | backend/src/apps/automation/context.py:404-438 | for any size function, an element is kept if and only if it fits beside what was kept of those before it |
| Context.BoundIsBounded | backend/src/apps/automation/context.py:397-440 | overflow exactly when the mandatory blocks alone are too long; otherwise all of them are kept, the rest in order, and the final size is within the limit for any size function |
| Context.BoundIsMaximal | backend/src/apps/automation/context.py:404-438 | with a size that grows with its parts no skipped block or fact would fit in the final request, in any position |
| Context.PackRequest | backend/src/apps/automation/context.py:397-440 | the two loops, one over blocks and one over facts, keep exactly what the greedy pass keeps |
| Context.BuildBoundedReplyContext | backend/src/apps/automation/context.py:365-467 | the builder returns that request, or report an unlinked message or an overflow |
| Context.BuildBoundedScheduledContactContext | backend/src/apps/automation/context.py:582-672 | the same for a scheduled contact, which also needs a goal |
| Regions.CharactersKeepTheirPlace | backend/src/apps/automation/candidates.py:141 | two replacements equal one pass, and every surviving character sits at the computed place of the normalised text |
| Regions.SplitInboundRegions | backend/src/apps/automation/candidates.py:138-164 | the boundaries are the first quote line and the first signature line before it, each the end of the text when missing |
| Regions.LinesExactly | backend/src/apps/automation/candidates.py:138-164 | joined again the lines are the text, none is empty, none goes on after a line end, and only the last may do without one |
| Regions.MarkersExactly | backend/src/apps/automation/candidates.py:138-164 | the quote pattern sees a line without its line feeds, the signature pattern also without its margins |
| Regions.RegionsPartitionText | backend/src/apps/automation/candidates.py:138-164 | a place is quoted exactly when its line or one above is a quote line, and new content exactly when no line down to its own carries a marker |
| Regions.LabelsNeverOverTrust | backend/src/apps/automation/candidates.py:43-48 | a raw offset labelled new content lies before every signature and quote line, one labelled signature before every quote line |
| Regions.LabelsExactly | backend/src/apps/automation/candidates.py:187-191 | all labels are right if and only if no carriage return before the quoted part disappears in normalisation |
| Regions.ExactWithoutCarriageReturns | backend/src/apps/automation/candidates.py:187-191 | in a text without carriage returns every label is right |
| Regions.ExtractLiteralCandidates | backend/src/apps/automation/candidates.py:177-227 | every candidate was literally there with the label of its own offset, none twice, below the limit of ten none is missing, and the first ten of text and links, in that order, stay |
| Regions.NewContentCandidatesAreAuthored | backend/src/apps/automation/candidates.py:177-207 | a text candidate labelled new content starts before every signature and quote line |
| Regions.PersistIsIdempotent | backend/src/apps/automation/candidates.py:230-274 | at most ten rows, one per address and region, earlier rows untouched, and persisting again changes nothing |
| Regions.PersistOneMore | backend/src/apps/automation/candidates.py:230-274 | one value more adds one row, at the end, if and only if fewer than ten are there and none has its address and region |
| Knowledge.HistoryKeepsTidy | backend/src/apps/automation/services.py:154-226 | over every history a fact has at most one live revision, versions increase, texts never change and nothing superseded lives again |
| Knowledge.ApprovedFactRevisions | backend/src/apps/automation/retrieval.py:83-100 | the dictionary keeps every row of the query, one per fact |
| Knowledge.ClearIsGrounded | backend/src/apps/automation/execution.py:203-225 | when the gate is clear, however the facts changed since, every citation is the single live revision of an active fact then and now, was in the context, and reads as the model saw it |
| Knowledge.GateIsExact | backend/src/apps/automation/execution.py:203-225 | a validated decision passes the gate if and only if no citation was superseded and all their facts are active |
| Grounding.RepliesLeaveGrounded | backend/src/apps/automation/execution.py:301-353 | in every run that interleaves deliveries with changes of facts, whenever an automatic message leaves the queue all citations of its decision are grounded; a reply has one, and a redirect names a candidate and has none |
| Grounding.RepliesAreQueuedGrounded | backend/src/apps/automation/execution.py:666-826 | and they are grounded already when its first message is queued |
| Grounding.FactsGateIsExact | backend/src/apps/automation/services.py:580-604 | in every such run the facts gate of a recorded decision is clear if and only if no citation was superseded and all their facts are active |
| Grounding.StepKeepsGround | backend/src/apps/automation/services.py:649-790 | what was recorded with a decision keeps fitting the decision, the request it answers and the facts of that time |
| Knowledge.KnowledgeBase.CreateKnowledgeRevision | backend/src/apps/automation/services.py:154-189 | appends the next version, not live yet, or refuses empty texts |
| Knowledge.KnowledgeBase.ApproveKnowledgeRevision | backend/src/apps/automation/services.py:192-226 | a fresh approval makes the revision the only live one of its fact; a repeated one changes nothing |
| KnowledgeRows.CreatesExactly | backend/src/apps/automation/services.py:154-189 | the version appended is one more than the fact's highest, approved by nobody; the fact is new and active if it was not there |
| KnowledgeRows.ApprovesExactly | backend/src/apps/automation/services.py:192-226 | a first approval stamps the revision and supersedes every other live revision of its fact, and touches no other row |
| KnowledgeRows.ClearExactly | backend/src/apps/automation/execution.py:203-225 | the gate is clear if and only if a reply cites something and each citation is usable, was shown, and reads in every place it was shown as it reads now, in the same version |
| Approval.RowsAreTheAudience | backend/src/apps/campaigns/approval.py:162-182 | the audience rows list exactly the enrolments in the audience, with their emails |
| Approval.PreparationCoversAudience | backend/src/apps/campaigns/approval.py:224-275 | after preparation the audience is exactly the eligible enrolments, each with a message; existing messages keep their state |
| Approval.FreshPreparationIsReady | backend/src/apps/campaigns/approval.py:224-275 | a campaign prepared for the first time meets the condition of either approval |
| Approval.CampaignApprovalIsExact | backend/src/apps/campaigns/approval.py:436-518 | after approval the stored hash describes the audience and somebody goes out; audience and approved messages coincide if and only if every slot was ready |
| Approval.PerMessageStartIsExact | backend/src/apps/campaigns/approval.py:521-617 | the same for the per-message path, with its own condition |
| ApprovalRows.ApprovesExactly | backend/src/apps/campaigns/approval.py:420-518 | an approval is accepted if and only if a whole campaign waits for it with valid files, unchanged audience, files, schedule and text, no message ready with other files, and at least one ready to go |
| ApprovalRows.ApprovedRows | backend/src/apps/campaigns/approval.py:462-518 | then ready messages that may go are queued and stamped, the other ready ones cancelled with their enrolment, and the rest stays |
| ApprovalRows.StartsExactly | backend/src/apps/campaigns/approval.py:521-617 | a per-message start is accepted if and only if such a campaign waits for it with valid files, no picked message that may go has other files, and at least one picked may go |
| ApprovalRows.StartedRows | backend/src/apps/campaigns/approval.py:521-617 | then picked messages that may go are queued, the other picked ones cancelled with their enrolment, and every other message withdrawn |
| FirstApproval.StepKeepsFirstRound | backend/src/apps/contacts/services.py:618-703 | up to the first approval, every step of search, enrolment, loss, contact, review and refresh keeps the facts that make an approval exact |
| FirstApproval.FirstApprovalIsExact | backend/src/apps/campaigns/approval.py:436-518 | in every run, an accepted first approval leaves exactly the audience with queued and approved messages, described by the stored hash, and not empty |
| FirstApproval.FirstStartIsExactly | backend/src/apps/campaigns/approval.py:521-617 | in every run, the same holds of a first per-message start if and only if each enrolment of the audience has a message |
| EnrolmentRows.StandingsExactly | backend/src/apps/contacts/services.py:618-703 | eligibility comes once, is put off by the audience filter while the campaign searches or runs, and is lost for good |
| EnrolmentRows.ReviewsExactly | backend/src/apps/campaigns/review.py:136-260 | a message is edited as long as it is up for review, and released if its enrolment is fit and has its email |
| AudienceGaps.StartMayListAnEnrolmentWithoutMessage | backend/src/apps/prospects/services.py:91-122 | a concrete run: a business is restored and made eligible, and before the audience is refreshed the start lists it without message |
| AudienceGaps.SecondApprovalMayReachOutsideTheAudience | backend/src/apps/campaigns/services.py:96-125 | a concrete run: approved, paused and sent back to search, a campaign's second approval leaves a queued message of an enrolment that the stored hash does not list |
| ApprovalDesk.Desk.PrepareFixedInitialMessages | backend/src/apps/campaigns/approval.py:224-275 | the loop prepares every slot as specified, or raises before changing any |
| ApprovalDesk.Desk.ApproveCampaign | backend/src/apps/campaigns/approval.py:436-518 | the loop approves as specified and lets only passing messages with the campaign's PDFs go; a refused approval changes nothing, even after earlier slots were written |
| ApprovalDesk.Desk.StartPerMessageCampaign | backend/src/apps/campaigns/approval.py:521-617 | both loops together start as specified and let only passing messages with the campaign's PDFs go; a refused start changes nothing |
| LoginThrottle.HalfHour | backend/src/apps/accounts/services.py:154-195 | one counter records at most 2 * limit - 1 failures in any half-open half hour, one less when no unlock opened its window |
| LoginThrottle.BoundedExactly | backend/src/apps/accounts/services.py:154-195 | the smaller bound holds of a counter if and only if no unlock has just left it an empty window |
| LoginThrottle.RunIsLegal | backend/src/apps/api/auth.py:73-115 | seen from one key, every run of the login view is a history of failures none of which happened while that key was locked |
| LoginThrottle.WorstHalfHour | backend/src/apps/accounts/services.py:135-229 | over whole runs, for pairs and addresses, both bounds hold and the stored count never exceeds the limit |
| LoginThrottle.WorstHalfHourFromScratch | backend/src/apps/accounts/services.py:232-237 | from a fresh row, as after a success, 8 and 38 hold without condition |
| LoginThrottle.NineFailuresAfterAnUnlock | backend/src/apps/accounts/services.py:240-275 | a concrete run records nine failures of one pair within half an hour after an unlock |
| LoginRaces.OverlappingHalfHour | backend/src/apps/api/auth.py:78-101 | over every run with at most m attempts on a key between check and record, any half-open half hour holds at most 2 * (limit + m - 1) failures, and the stored count at most limit + m - 1 |
| LoginRaces.StepKeepsKeyOk | backend/src/apps/accounts/services.py:154-195 | a full window stays locked to its end, and only attempts that passed before the lock can still add to it |
| LoginRaces.LateFailureLiftsTheLockExactly | backend/src/apps/accounts/services.py:172-181 | a failure recorded under a lock takes it away if and only if the window has run out |
| LoginRaces.OverlapsHaveNoBound | backend/src/apps/api/auth.py:78-101 | a run in which any number of attempts pass their checks and then all record a failure within one half hour |
| LoginThrottle.Throttle.RecordScopeFailure | backend/src/apps/accounts/services.py:154-195 | updates exactly that row: new window, count and lock |
| LoginThrottle.Throttle.Status | backend/src/apps/accounts/services.py:135-151 | refuses exactly while one of the two keys is locked, and the wait in seconds covers the longer lock |
| LoginThrottle.Throttle.Login | backend/src/apps/api/auth.py:73-115 | an attempt locked at its check changes nothing, a failure counts on both keys at its own reading of the clock, a success deletes the pair; no other row changes |
| LoginThrottle.Throttle.UnlockLogin | backend/src/apps/accounts/services.py:240-275 | resets exactly the selected rows and counts them |
| LoginRows.FailsExactly | backend/src/apps/accounts/services.py:154-195 | a failure counts in its window or opens a new one after half an hour; a row whose count reaches the limit and that is not locked is locked for half an hour |
| LoginRows.AttemptsExactly | backend/src/apps/api/auth.py:73-115 | row by row: a refused attempt changes nothing, a success forgets the pair, a failure counts on pair and address |
| LoginRows.ResetsExactly | backend/src/apps/accounts/services.py:232-275 | a success and an unlock, and nothing else, leave nothing of a count |
| LoginRows.WaitsExactly | backend/src/apps/accounts/services.py:131-132 | the wait is the shortest number of whole seconds, at least one, that outlasts the lock |

## Left out

- The bounds on real sends and the completeness of the sweep are for runs with one worker per message; the code keeps deliveries apart by time limits only. At-most-once, redirect order and capacity hold without that.
- TopicModes.WorkspaceSendsBounded: assumes one worker per message and a clock that does not go back between mode changes, confirmations and departures; what the guard excludes breaks the bound in `mode_change.dfy`.
- FollowUpSpacing.FollowUpsAreAWeekApart: assumes one worker per message and a clock that moves forward; that no due date moves under an open hand-off and that the spacing is kept are exact conditions of each step.
- Plans, topics and due dates are in `scheduled.dfy`; the delivery protocol sees of them the mode of the topic and a verdict.
- MemoryStore.AsOfAgreesWithHistory: speaks of instants outside a refresh; the instants inside one are InstantInsideARefreshSeesNothing.
- Gmail, language model, embeddings, DNS and storage are outcomes chosen freely at each call; policy text, addresses, MIME and attachment checks of the delivery gates arrive as verdicts.
- The marker patterns, the address pattern, HTML parsing of mailto links and `str.strip` are parameters of `regions.dfy`; the JSON size and the excerpt are parameters of `memory.dfy` and `context.dfy`.
- ShownHistory.OfferedHistory: speaks of a memory just refreshed and of what is offered to the packing in `context.dfy`, which may still skip it; what a later automatic reply of another conversation is, and which messages are mandatory, are parameters.
- History.LimitedQueriesLoseNothing: needs distinct timestamps, and a sent message to carry its `sent_at`; ties are broken differently by the query and by the sort.
- SHA-256 is injective: digests are the values they were computed from, so collisions are not modelled. Malformed source identifiers are one rejected value.
- Ranking by similarity in `retrieve_relevant_fact_revisions`, the embedding cache, and the confidence policy of `_policy_result` are not modelled.
- The contents of the final recheck other than open tasks, reservation, proposal and rates (manifest integrity, candidate, recipient, thread headers) are one verdict; the cited facts are in `knowledge.dfy`.
- The local calendar day is UTC-3 all year, as in Buenos Aires since 2009.
- LoginThrottle.Throttle.Login: one attempt at a time; attempts that overlap are the runs of `login_races.dfy`.
- Manual retry of failed messages, campaign delivery and reminders, and prospect search are not part of this model. `audience_runs.dfy` takes from them that a lost eligibility does not come back: contacts and invalid emails stay, and a suppression is only lifted for an organization that is a contact.
- Initial messages without an enrolment, which only old rows have, are not modelled.
- Roles, capabilities, audit events, error texts, the API and the user interface are not modelled.
