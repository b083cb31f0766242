/**
 The transactions of the delivery protocol (`automation/execution.py`), as functions on the database value.

 Each function is one `transaction.atomic` block. Verdicts of code outside the model (policy text, addresses,
 MIME, Gmail readiness) arrive as parameters, so every outcome the source can take is available to a run.
 A decision is identified by its inbound message, and an automatic message by its semantic key: the database
 makes both unique.
 */
module Delivery {
  import opened Common
  import T = HumanTasks
  import C = Capacity

  const RECONCILE_AFTER: int := MINUTE
  const STALE_SENDING_AFTER: int := 2 * MINUTE

  // ---------- rows ----------

  datatype Mode = Off | Shadow | Live

  datatype Action = Reply | RedirectProposal | AskHuman | DoNothing

  datatype DecisionState =
    | Pending | ShadowRecorded | NoAction | AutoEligible | Authorized | Executing | Completed
    | ManualReplyRecorded | HumanRequired | RejectedPolicy | Failed

  /** `thread` is the Gmail thread of the inbound message that was decided on. */
  datatype Decision = Decision(
    workspace: nat, contact: nat, conversation: nat, thread: string,
    mode: Mode, action: Action, state: DecisionState)

  datatype Kind = AutomaticReply | ReferredProposal | RedirectAck

  datatype Key = Auto(kind: Kind, inbound: nat) | Scheduled(attempt: nat)

  datatype MessageState =
    | Prepared | ReviewReady | Queued | Sending | Reconciling | Sent | Ineligible | SendFailed | Cancelled

  /** `approved` is the column `approved_at`: a person released this scheduled draft. */
  datatype Message = Message(
    state: MessageState, attempts: nat,
    startedAt: Option<int>, nextAttemptAt: Option<int>, sentAt: Option<int>,
    approved: bool)

  /** What the protocol reads of a scheduled attempt. */
  datatype Attempt = Attempt(workspace: nat, contact: nat, topic: nat)

  /** `automatic` holds the topics now in automatic mode; `threads` maps a Gmail thread to the contact that owns its
      conversation. */
  datatype Db = Db(
    decisions: map<nat, Decision>,
    messages: map<Key, Message>,
    attempts: map<nat, Attempt>,
    automatic: set<nat>,
    threads: map<string, nat>,
    reservations: seq<C.Reservation>,
    tasks: T.TaskStore,
    limits: C.Limits)

  predicate PendingState(s: DecisionState) {
    s in {AutoEligible, Authorized, Executing}
  }

  predicate InFlight(s: MessageState) {
    s.Sending? || s.Reconciling?
  }

  /** The message kinds a decision may send. */
  predicate KindAllowed(action: Action, kind: Kind) {
    match kind
    case AutomaticReply => action.Reply?
    case ReferredProposal | RedirectAck => action.RedirectProposal?
  }

  function SlotsFor(action: Action): nat {
    if action.RedirectProposal? then 2 else 1
  }

  function FirstKind(action: Action): Kind {
    if action.RedirectProposal? then ReferredProposal else AutomaticReply
  }

  predicate HasAutomatic(db: Db, inbound: nat) {
    || Auto(AutomaticReply, inbound) in db.messages
    || Auto(ReferredProposal, inbound) in db.messages
    || Auto(RedirectAck, inbound) in db.messages
  }

  predicate ProposalSent(db: Db, inbound: nat) {
    var k := Auto(ReferredProposal, inbound);
    k in db.messages && db.messages[k].state.Sent?
  }

  function QueuedMessage(now: int): Message {
    Message(Queued, 0, None, Some(now), None, false)
  }

  // ---------- rejecting a decision ----------

  function ReviewRequest(d: Decision, inbound: nat, reason: string): T.OpenRequest {
    T.OpenRequest(d.contact, Some(d.conversation), Some(inbound), T.REPLY_REVIEW, reason)
  }

  function FailRow(messages: map<Key, Message>, key: Key): map<Key, Message> {
    if key in messages && !messages[key].state.Sent?
    then messages[key := messages[key].(state := SendFailed, nextAttemptAt := None)]
    else messages
  }

  /** `_reject_decision_locked`; `None` when opening the human task raises, which rolls the caller back. */
  function Reject(db: Db, inbound: nat, reason: string, message: Option<Key>, failed: bool): Option<Db>
    requires inbound in db.decisions
  {
    var d := db.decisions[inbound];
    match T.OpenTask(db.tasks, ReviewRequest(d, inbound, reason))
    case None => None
    case Some(tasks) =>
      Some(db.(
        decisions := db.decisions[inbound := d.(state := if failed then HumanRequired else RejectedPolicy)],
        messages := if message.Some? then FailRow(db.messages, message.value) else db.messages,
        tasks := tasks))
  }

  // ---------- authorising ----------

  /** Verdicts outside the model. `address` is the refusal reason of the checks made after the reservation. */
  datatype AuthorizeChecks = AuthorizeChecks(
    manualReply: bool, policy: bool, liveOrigin: bool, gmailReady: bool, address: string)

  /** `_decision_policy_error`: the stored mode and action, and everything else as one verdict. */
  predicate PolicyClear(d: Decision, verdict: bool) {
    d.mode.Live? && (d.action.Reply? || d.action.RedirectProposal?) && verdict
  }

  /** How the checks of a transaction come out: it raises, changes nothing, rejects the decision, or goes on
      with the given reservation table. */
  datatype Verdict =
    | Raises
    | Keeps
    | Rejects(reason: string, failed: bool, reservations: seq<C.Reservation>)
    | Allows(reservations: seq<C.Reservation>)

  function AuthorizeVerdict(db: Db, inbound: nat, now: int, checks: AuthorizeChecks): Verdict {
    if inbound !in db.decisions then Raises
    else
      var d := db.decisions[inbound];
      if d.state !in {Pending, AutoEligible, Authorized, Executing} then Keeps
      else if HasAutomatic(db, inbound) then Keeps
      else if !d.state.AutoEligible? then Keeps
      else if checks.manualReply then Rejects("MANUAL_REPLY_ALREADY_AUTHORIZED", true, db.reservations)
      else if !T.ReplyGateClear(db.tasks, d.contact, d.conversation) then
        Rejects("HUMAN_TASK_OPEN", false, db.reservations)
      else if !PolicyClear(d, checks.policy) then Rejects("POLICY_RECHECK_FAILED", false, db.reservations)
      else if !checks.liveOrigin then Rejects("NOT_LIVE_ORIGIN", false, db.reservations)
      else if !checks.gmailReady then Rejects("GMAIL_NOT_READY", false, db.reservations)
      else
        match C.ReserveForDecision(db.reservations, db.limits, d.workspace, inbound, d.conversation,
                                   SlotsFor(d.action), now)
        case None => Rejects("AUTOMATIC_RATE_LIMIT", false, db.reservations)
        case Some(rs) => if checks.address != "" then Rejects(checks.address, false, rs) else Allows(rs)
  }

  /** `authorize_reply_decision`; `None` is a raised, rolled back transaction. */
  function AuthorizeReply(db: Db, inbound: nat, now: int, checks: AuthorizeChecks): Option<Db> {
    match AuthorizeVerdict(db, inbound, now, checks)
    case Raises => None
    case Keeps => Some(db)
    case Rejects(reason, failed, rs) => Reject(db.(reservations := rs), inbound, reason, None, failed)
    case Allows(rs) =>
      var d := db.decisions[inbound];
      Some(db.(
        reservations := rs,
        decisions := db.decisions[inbound := d.(state := Authorized)],
        messages := db.messages[Auto(FirstKind(d.action), inbound) := QueuedMessage(now)]))
  }

  function AckVerdict(db: Db, inbound: nat, policy: bool, address: string): Verdict {
    if inbound !in db.decisions then Raises
    else
      var d := db.decisions[inbound];
      if Auto(RedirectAck, inbound) in db.messages then Keeps
      else if !ProposalSent(db, inbound) then Keeps
      else if !d.state.Authorized? && !d.state.Executing? then Keeps
      else if !T.ReplyGateClear(db.tasks, d.contact, d.conversation) then
        Rejects("HUMAN_TASK_OPEN", true, db.reservations)
      else if !PolicyClear(d, policy) then Rejects("POLICY_RECHECK_FAILED", true, db.reservations)
      else if address != "" then Rejects(address, true, db.reservations)
      else Allows(db.reservations)
  }

  /** `authorize_redirect_ack`. */
  function AuthorizeAck(db: Db, inbound: nat, now: int, policy: bool, address: string): Option<Db> {
    match AckVerdict(db, inbound, policy, address)
    case Raises => None
    case Keeps => Some(db)
    case Rejects(reason, failed, rs) => Reject(db, inbound, reason, None, failed)
    case Allows(rs) => Some(db.(messages := db.messages[Auto(RedirectAck, inbound) := QueuedMessage(now)]))
  }

  // ---------- the gate just before the provider ----------

  predicate CountsForConversation(db: Db, k: Key, conversation: nat, from: int) {
    && k in db.messages && k.Auto? && k.inbound in db.decisions
    && db.decisions[k.inbound].conversation == conversation
    && var m := db.messages[k];
       (m.state.Sent? && m.sentAt.Some? && m.sentAt.value >= from) || InFlight(m.state)
  }

  function ConversationUsed(db: Db, key: Key, conversation: nat, from: int): nat {
    |set k | k in db.messages && k != key && CountsForConversation(db, k, conversation, from)|
  }

  /** The attempt's topic is in automatic mode at this moment. */
  predicate TopicAutomatic(db: Db, attempt: nat) {
    attempt in db.attempts && db.attempts[attempt].topic in db.automatic
  }

  predicate InWorkspace(db: Db, k: Key, workspace: nat) {
    match k
    case Auto(_, i) => i in db.decisions && db.decisions[i].workspace == workspace
    case Scheduled(a) => TopicAutomatic(db, a) && db.attempts[a].workspace == workspace
  }

  predicate CountsForDay(db: Db, k: Key, workspace: nat, date: int) {
    && k in db.messages && InWorkspace(db, k, workspace)
    && var m := db.messages[k];
       || (m.state.Sent? && m.sentAt.Some? && DayStart(date) <= m.sentAt.value < DayStart(date + 1))
       || InFlight(m.state)
  }

  function WorkspaceUsed(db: Db, key: Key, workspace: nat, date: int): nat {
    |set k | k in db.messages && k != key && CountsForDay(db, k, workspace, date)|
  }

  /** `_final_delivery_rate_error`: true when the message may leave. */
  predicate RateClear(db: Db, key: Key, workspace: nat, conversation: Option<nat>, now: int) {
    && (conversation.Some? ==>
          ConversationUsed(db, key, conversation.value, now - 24 * HOUR) + 1 <= db.limits.conversation)
    && WorkspaceUsed(db, key, workspace, LocalDate(now)) + 1 <= db.limits.workspace
  }

  // ---------- preparing the effect ----------

  /** Verdicts outside the model: a manual reply in progress, policy, message integrity with recipient and
      candidate, Gmail readiness, and the MIME build. */
  datatype SendChecks = SendChecks(manualReply: bool, policy: bool, integrity: bool, gmailReady: bool, built: bool)

  /** Whether the worker got an effect to send, a state to report, or an exception. */
  datatype PrepareResult = Raised | Stopped(db: Db) | Effect(db: Db)

  /** `_automatic_message_error`. */
  predicate AutomaticClear(db: Db, kind: Kind, inbound: nat, checks: SendChecks)
    requires inbound in db.decisions
  {
    var d := db.decisions[inbound];
    && T.ReplyGateClear(db.tasks, d.contact, d.conversation)
    && !checks.manualReply
    && PolicyClear(d, checks.policy)
    && (var r := C.FindReservation(db.reservations, C.ForDecision(inbound, d.conversation));
        r.Some? && r.value.slots == SlotsFor(d.action))
    && KindAllowed(d.action, kind)
    && (kind.RedirectAck? ==> ProposalSent(db, inbound)
                              && db.messages[Auto(ReferredProposal, inbound)].sentAt.Some?)
    && checks.integrity
  }

  /** `_scheduled_message_error`: in automatic mode the attempt holds a reservation, in review mode a person has
      released the draft. */
  predicate ScheduledClear(db: Db, attempt: nat, checks: SendChecks) {
    && attempt in db.attempts
    && T.ScheduledGateClear(db.tasks, db.attempts[attempt].contact)
    && checks.policy
    && (if TopicAutomatic(db, attempt) then C.FindReservation(db.reservations, C.ForAttempt(attempt)).Some?
        else Scheduled(attempt) in db.messages && db.messages[Scheduled(attempt)].approved)
    && checks.integrity
  }

  function WithRow(db: Db, key: Key, m: Message): Db {
    db.(messages := db.messages[key := m])
  }

  function SendingRow(m: Message, now: int): Message {
    m.(state := Sending, attempts := m.attempts + 1, startedAt := Some(now), nextAttemptAt := None)
  }

  function SendVerdict(db: Db, kind: Kind, inbound: nat, now: int, checks: SendChecks): Verdict {
    if inbound !in db.decisions then Raises
    else
      var d := db.decisions[inbound];
      if !AutomaticClear(db, kind, inbound, checks) then Rejects("FINAL_SEND_RECHECK_FAILED", true, db.reservations)
      else if !checks.gmailReady then Rejects("GMAIL_NOT_READY", true, db.reservations)
      else if !checks.built then Rejects("MIME_OR_ATTACHMENT_FAILURE", true, db.reservations)
      else if !RateClear(db, Auto(kind, inbound), d.workspace, Some(d.conversation), now) then
        Rejects("FINAL_AUTOMATIC_RATE_LIMIT", true, db.reservations)
      else Allows(db.reservations)
  }

  function PrepareAutomatic(db: Db, kind: Kind, inbound: nat, now: int, checks: SendChecks): PrepareResult
    requires Auto(kind, inbound) in db.messages
  {
    var key := Auto(kind, inbound);
    match SendVerdict(db, kind, inbound, now, checks)
    case Raises => Raised
    case Keeps => Stopped(db)
    case Rejects(reason, failed, rs) =>
      (match Reject(db, inbound, reason, Some(key), failed) case None => Raised case Some(db') => Stopped(db'))
    case Allows(rs) =>
      Effect(WithRow(db, key, SendingRow(db.messages[key], now)).(
             decisions := db.decisions[inbound := db.decisions[inbound].(state := Executing)]))
  }

  /** Where a scheduled message goes: `Sending` exactly when it leaves. */
  function ScheduledOutcome(db: Db, attempt: nat, now: int, checks: SendChecks): MessageState {
    if !ScheduledClear(db, attempt, checks) then Ineligible
    else if !checks.gmailReady || !checks.built then SendFailed
    else if TopicAutomatic(db, attempt)
            && !RateClear(db, Scheduled(attempt), db.attempts[attempt].workspace, None, now) then Ineligible
    else Sending
  }

  function PrepareScheduled(db: Db, attempt: nat, now: int, checks: SendChecks): PrepareResult
    requires Scheduled(attempt) in db.messages
  {
    var key := Scheduled(attempt);
    var m := db.messages[key];
    var outcome := ScheduledOutcome(db, attempt, now, checks);
    if outcome.Sending? then Effect(WithRow(db, key, SendingRow(m, now)))
    else Stopped(WithRow(db, key, m.(state := outcome, nextAttemptAt := None)))
  }

  /** `_prepare_outbound_effect`. */
  function Prepare(db: Db, key: Key, now: int, checks: SendChecks): PrepareResult {
    if key !in db.messages then Raised
    else
      var m := db.messages[key];
      if m.state in {Sent, SendFailed, Cancelled, Ineligible, Reconciling, Sending} then Stopped(db)
      else if !m.state.Queued? then Stopped(WithRow(db, key, m.(state := SendFailed)))
      else
        match key
        case Auto(kind, inbound) => PrepareAutomatic(db, kind, inbound, now, checks)
        case Scheduled(attempt) => PrepareScheduled(db, attempt, now, checks)
  }

  // ---------- the provider answered ----------

  /** `_new_conversation_for_result`: the thread table after the result, or `None` when another contact owns
      the thread or the Gmail connection is gone. */
  function TieThread(threads: map<string, nat>, contact: nat, thread: string, connected: bool):
      Option<map<string, nat>> {
    if !connected then None
    else if thread in threads then (if threads[thread] == contact then Some(threads) else None)
    else Some(threads[thread := contact])
  }

  function ProposalThreads(db: Db, d: Decision, thread: string, connected: bool): Option<map<string, nat>> {
    if thread == "" || thread == d.thread then None else TieThread(db.threads, d.contact, thread, connected)
  }

  /** Whether a confirmation leaves the message in a thread its contact owns. */
  predicate Tied(db: Db, key: Key, thread: string, connected: bool) {
    match key
    case Auto(kind, i) =>
      i in db.decisions &&
      (if kind.ReferredProposal? then ProposalThreads(db, db.decisions[i], thread, connected).Some?
       else thread == db.decisions[i].thread)
    case Scheduled(a) => a in db.attempts && TieThread(db.threads, db.attempts[a].contact, thread, connected).Some?
  }

  function SentRow(m: Message, now: int): Message {
    m.(state := Sent, sentAt := Some(now), nextAttemptAt := None)
  }

  /** What a confirmation does beyond its row, for an automatic message. */
  function ConfirmAutomatic(sent: Db, kind: Kind, inbound: nat, thread: string, connected: bool): Option<Db> {
    if inbound !in sent.decisions then Some(sent)
    else
      var d := sent.decisions[inbound];
      if kind.ReferredProposal? then
        var executing := sent.(decisions := sent.decisions[inbound := d.(state := Executing)]);
        (match ProposalThreads(sent, d, thread, connected)
         case Some(threads) => Some(executing.(threads := threads))
         case None => Reject(executing, inbound, "GMAIL_THREAD_OWNERSHIP_CONFLICT", None, true))
      else if thread != d.thread then
        Reject(sent, inbound, "GMAIL_REPLY_THREAD_MISMATCH", Some(Auto(kind, inbound)), true)
      else Some(sent.(decisions := sent.decisions[inbound := d.(state := Completed)]))
  }

  /** And for a scheduled one. */
  function ConfirmScheduled(sent: Db, attempt: nat, thread: string, connected: bool): Option<Db> {
    if attempt !in sent.attempts then Some(sent)
    else
      var contact := sent.attempts[attempt].contact;
      match TieThread(sent.threads, contact, thread, connected)
      case Some(threads) => Some(sent.(threads := threads))
      case None =>
        var request := T.OpenRequest(contact, None, None, "SCHEDULED_CONTACT", "GMAIL_THREAD_OWNERSHIP_CONFLICT");
        match T.OpenTask(sent.tasks, request)
        case None => None
        case Some(tasks) => Some(sent.(tasks := tasks))
  }

  /** `_confirm_outbound_sent`. */
  function Confirm(db: Db, key: Key, now: int, thread: string, connected: bool): Option<Db> {
    if key !in db.messages then None
    else if !InFlight(db.messages[key].state) then Some(db)
    else
      var sent := WithRow(db, key, SentRow(db.messages[key], now));
      match key
      case Auto(kind, inbound) => ConfirmAutomatic(sent, kind, inbound, thread, connected)
      case Scheduled(attempt) => ConfirmScheduled(sent, attempt, thread, connected)
  }

  /** `_record_outbound_error`. Unlike every other transaction it never looks at the current state. */
  function RecordError(db: Db, key: Key, now: int, ambiguous: bool): Option<Db> {
    if key !in db.messages then None
    else
      var m := db.messages[key];
      if ambiguous then
        Some(WithRow(db, key, m.(state := Reconciling, nextAttemptAt := Some(now + RECONCILE_AFTER))))
      else
        var failed := WithRow(db, key, m.(state := SendFailed, nextAttemptAt := None));
        if key.Scheduled? then Some(failed)
        else if key.inbound !in db.decisions then None
        else Reject(failed, key.inbound, "GMAIL_DELIVERY_FAILED", Some(key), true)
  }

  // ---------- the other writers of these rows ----------

  function CancelRow(m: Message): Message {
    if m.state in {Prepared, ReviewReady, Queued} then m.(state := Cancelled, nextAttemptAt := None) else m
  }

  /** A reply written directly in Gmail (`mailbox/sync.py`): cancels what has not left and takes the decision over. */
  function ManualReplyImported(db: Db, inbound: nat): Db {
    var messages := map k | k in db.messages ::
      if k.Auto? && k.inbound == inbound then CancelRow(db.messages[k]) else db.messages[k];
    var decisions :=
      if inbound in db.decisions && !db.decisions[inbound].state.Completed?
      then db.decisions[inbound := db.decisions[inbound].(state := ManualReplyRecorded)]
      else db.decisions;
    db.(messages := messages, decisions := decisions, tasks := T.ResolveForManualReply(db.tasks, inbound))
  }

  /** A cancelled campaign (`campaigns/services.py`) withdraws the messages that carry it, automatic replies to its
      messages among them, and touches nothing else. */
  function CancelCampaign(db: Db, inbounds: set<nat>): Db {
    db.(messages := map k | k in db.messages ::
      if k.Auto? && k.inbound in inbounds && db.messages[k].state in {Prepared, ReviewReady, Queued}
      then db.messages[k].(state := Cancelled) else db.messages[k])
  }

  /** The last transaction of `process_scheduled_contact_attempt`, once the draft exists. */
  function CreateScheduled(db: Db, attempt: nat, now: int, conversation: Option<nat>): Option<Db> {
    if attempt !in db.attempts then None
    else
      var a := db.attempts[attempt];
      var key := Scheduled(attempt);
      if key in db.messages then Some(db)
      else if !TopicAutomatic(db, attempt) then
        Some(WithRow(db, key, QueuedMessage(now).(state := ReviewReady, nextAttemptAt := None)))
      else
        match C.ReserveForAttempt(db.reservations, db.limits, a.workspace, attempt, now)
        case Some(rs) => Some(WithRow(db, key, QueuedMessage(now)).(reservations := rs))
        case None =>
          var request := T.OpenRequest(a.contact, conversation, None, "SCHEDULED_CONTACT", "AUTOMATIC_DAILY_LIMIT");
          match T.OpenTask(db.tasks, request)
          case None => None
          case Some(tasks) => Some(db.(tasks := tasks))
  }

  /** `authorize_scheduled_contact_attempt`: an administrator releases a reviewed draft. */
  function ApproveScheduled(db: Db, attempt: nat, now: int): Db {
    var key := Scheduled(attempt);
    if key in db.messages && db.messages[key].state.ReviewReady?
    then WithRow(db, key, db.messages[key].(state := Queued, nextAttemptAt := Some(now), approved := true))
    else db
  }

  /** A scheduled message withdrawn before it left, as `_cancel_open_attempts` does. */
  function CancelScheduled(db: Db, attempt: nat): Db {
    var key := Scheduled(attempt);
    if key in db.messages then WithRow(db, key, CancelRow(db.messages[key])) else db
  }

  /** `save_follow_up_topic` or `save_contact_communication_plan`: the mode of a topic changes. What else the two do is
      to withdraw open attempts, one `CancelScheduled` each. */
  function SetMode(db: Db, topic: nat, automatic: bool): Db {
    db.(automatic := if automatic then db.automatic + {topic} else db.automatic - {topic})
  }
}
