/**
 Follow-up plans, their attempts and their due dates (`automation/scheduled.py`).

 Plans and topics are numbered; an attempt is keyed by its plan and due date, the unique key of its table. The
 message of an attempt sits beside it; `handedAt` is history, the instant the message left for Gmail.
 */
module Scheduled {
  import opened Common

  const MINIMUM_DAYS: int := 7

  datatype Topic = Topic(cadence: int, nextDue: Option<int>, active: bool, automatic: bool)

  datatype PlanState = Disabled | Active | Paused

  datatype Plan = Plan(
    contact: nat,
    topic: nat,
    state: PlanState,
    nextDue: Option<int>,
    snoozedUntil: Option<int>,
    lastInteraction: Option<int>,
    lastSent: Option<int>)

  datatype AttemptState = Due | DraftReview | Authorized | AttemptSent | HumanRequired | AttemptCancelled | Ineligible

  datatype OutState = ReviewReady | Queued | Sending | Reconciling | Sent | SendFailed | Blocked | OutCancelled

  datatype Outbound = Outbound(state: OutState, handedAt: Option<int>, sentAt: Option<int>)

  datatype Key = Key(plan: nat, due: int)

  /** `recorded` is the attempt's own `sent_at`, set when its completion reaches the plan. */
  datatype Attempt = Attempt(state: AttemptState, outbound: Option<Outbound>, recorded: Option<int>)

  datatype Book = Book(topics: seq<Topic>, plans: seq<Plan>, attempts: map<Key, Attempt>)

  ghost predicate WellFormed(b: Book) {
    && (forall t :: 0 <= t < |b.topics| ==> b.topics[t].cadence >= MINIMUM_DAYS)
    && (forall p :: 0 <= p < |b.plans| ==> b.plans[p].topic < |b.topics|)
    && (forall k :: k in b.attempts ==> k.plan < |b.plans|)
  }

  // ---------- due dates ----------

  function Listed(x: Option<int>, days: int): seq<int> {
    if x.Some? then [x.value + days * DAY] else []
  }

  function MaxOf(s: seq<int>): (m: int)
    requires s != []
    ensures m in s
    ensures forall x :: x in s ==> x <= m
  {
    if |s| == 1 then s[0]
    else
      var rest := MaxOf(s[1..]);
      assert s == [s[0]] + s[1..];
      if s[0] >= rest then s[0] else rest
  }

  /** `_next_due_for_approval`. */
  function NextDueForApproval(plan: Plan, topic: Topic, now: int): (due: int)
    ensures plan.lastSent.Some? ==> due >= plan.lastSent.value + topic.cadence * DAY
    ensures plan.lastInteraction.Some? ==> due >= plan.lastInteraction.value + topic.cadence * DAY
    ensures topic.nextDue.Some? ==> due >= topic.nextDue.value
    ensures plan.snoozedUntil.Some? ==> due >= plan.snoozedUntil.value
    ensures due in Listed(topic.nextDue, 0) + Listed(plan.lastInteraction, topic.cadence)
                   + Listed(plan.lastSent, topic.cadence) + Listed(plan.snoozedUntil, 0) + [now + topic.cadence * DAY]
  {
    var sent := Listed(plan.lastSent, topic.cadence);
    var candidates := Listed(topic.nextDue, 0) + Listed(plan.lastInteraction, topic.cadence) + sent
                      + Listed(plan.snoozedUntil, 0);
    assert plan.lastSent.Some? ==> sent[0] in candidates;
    assert plan.lastInteraction.Some? ==> Listed(plan.lastInteraction, topic.cadence)[0] in candidates;
    assert topic.nextDue.Some? ==> Listed(topic.nextDue, 0)[0] in candidates;
    assert plan.snoozedUntil.Some? ==> Listed(plan.snoozedUntil, 0)[0] in candidates;
    if candidates != [] then MaxOf(candidates) else now + topic.cadence * DAY
  }

  /** The due date an interaction leaves behind: the latest of what is known, and nothing else. */
  function DueAfterInteraction(plan: Plan, cadence: int, at: int): (due: int)
    ensures due >= at + cadence * DAY
    ensures plan.nextDue.Some? ==> due >= plan.nextDue.value
    ensures plan.snoozedUntil.Some? ==> due >= plan.snoozedUntil.value
    ensures due == at + cadence * DAY || plan.nextDue == Some(due) || plan.snoozedUntil == Some(due)
  {
    var candidates := [at + cadence * DAY] + Listed(plan.nextDue, 0) + Listed(plan.snoozedUntil, 0);
    assert candidates[0] == at + cadence * DAY;
    assert plan.nextDue.Some? ==> candidates[1] == plan.nextDue.value && candidates[1] in candidates;
    assert plan.snoozedUntil.Some? ==>
        candidates[|candidates| - 1] == plan.snoozedUntil.value && candidates[|candidates| - 1] in candidates;
    MaxOf(candidates)
  }

  function Latest(x: Option<int>, y: int): int {
    if x.Some? && x.value > y then x.value else y
  }

  function AfterInteraction(plan: Plan, cadence: int, at: int): Plan {
    plan.(lastInteraction := Some(Latest(plan.lastInteraction, at)),
          nextDue := Some(DueAfterInteraction(plan, cadence, at)))
  }

  // ---------- cancelling ----------

  predicate Cancellable(s: AttemptState) {
    s in {Due, DraftReview, Authorized, HumanRequired, Ineligible}
  }

  function Cancelled(a: Attempt): Attempt {
    a.(state := AttemptCancelled,
       outbound := if a.outbound.Some? && a.outbound.value.state in {ReviewReady, Queued}
                   then Some(a.outbound.value.(state := OutCancelled)) else a.outbound)
  }

  predicate Withdraws(k: Key, a: Attempt, plan: nat, before: Option<int>) {
    k.plan == plan && Cancellable(a.state) && (before.Some? ==> k.due < before.value)
  }

  /** `_cancel_open_attempts`: a message already handed over is left alone. */
  function CancelOpen(attempts: map<Key, Attempt>, plan: nat, before: Option<int>): map<Key, Attempt> {
    map k | k in attempts ::
      if Withdraws(k, attempts[k], plan, before) then Cancelled(attempts[k]) else attempts[k]
  }

  // ---------- transactions over plans and topics ----------

  /** An active plan after its topic changed. */
  function Rescheduled(plan: Plan, topic: Topic, now: int): Plan {
    plan.(nextDue := if topic.active then Some(NextDueForApproval(plan, topic, now)) else None)
  }

  predicate Follows(plan: Plan, topic: nat) {
    plan.topic == topic && plan.state.Active?
  }

  function RescheduledPlan(b: Book, t: nat, now: int, p: nat): Plan
    requires t < |b.topics| && p < |b.plans|
  {
    if Follows(b.plans[p], t) then Rescheduled(b.plans[p], b.topics[t], now) else b.plans[p]
  }

  function WithdrawnRow(b: Book, t: nat, k: Key): Attempt
    requires k in b.attempts
  {
    if k.plan < |b.plans| && Follows(b.plans[k.plan], t) && Withdraws(k, b.attempts[k], k.plan, None)
    then Cancelled(b.attempts[k]) else b.attempts[k]
  }

  /** `_reschedule_topic_approvals`: only the active plans of the topic move. */
  function RescheduleTopic(b: Book, t: nat, now: int): Book
    requires t < |b.topics|
  {
    b.(plans := seq(|b.plans|, p requires 0 <= p < |b.plans| => RescheduledPlan(b, t, now, p)),
       attempts := map k | k in b.attempts :: WithdrawnRow(b, t, k))
  }

  /** `save_follow_up_topic` on an existing topic; a change of its texts counts as a change of schedule. */
  function SaveTopic(b: Book, t: nat, topic: Topic, textChanged: bool, now: int): Book {
    if t >= |b.topics| || topic.cadence < MINIMUM_DAYS then b
    else
      var saved := b.(topics := b.topics[t := topic]);
      if textChanged || topic != b.topics[t] then RescheduleTopic(saved, t, now) else saved
  }

  function NewTopic(b: Book, topic: Topic): Book {
    if topic.cadence < MINIMUM_DAYS then b else b.(topics := b.topics + [topic])
  }

  /** What `approve_contact_follow_up_topic` finds outside this model. */
  datatype ApprovalChecks = ApprovalChecks(emailOk: bool, emailChanged: bool, eligible: bool)

  /** The plan of a contact for a topic, or the length of the table. */
  function FindPlan(plans: seq<Plan>, contact: nat, topic: nat): (p: nat)
    ensures p <= |plans|
    ensures p < |plans| ==> plans[p].contact == contact && plans[p].topic == topic
  {
    if plans == [] then 0
    else if plans[0].contact == contact && plans[0].topic == topic then 0
    else 1 + FindPlan(plans[1..], contact, topic)
  }

  function NewPlan(contact: nat, topic: nat, state: PlanState): Plan {
    Plan(contact, topic, state, None, None, None, None)
  }

  /** `approve_contact_follow_up_topic`. */
  function Approve(b: Book, contact: nat, t: nat, enabled: bool, now: int, checks: ApprovalChecks): Book {
    if t >= |b.topics| || (enabled && !b.topics[t].active) || !checks.emailOk || (enabled && !checks.eligible) then b
    else
      var state := if enabled then Active else Disabled;
      var p := FindPlan(b.plans, contact, t);
      if p == |b.plans| then
        var plan := NewPlan(contact, t, state);
        var due := if enabled then Some(NextDueForApproval(plan, b.topics[t], now)) else None;
        b.(plans := b.plans + [plan.(nextDue := due)])
      else
        var plan := b.plans[p];
        var due := if enabled then Some(NextDueForApproval(plan, b.topics[t], now)) else None;
        var changed := checks.emailChanged || plan.nextDue != due || plan.state != state || plan.snoozedUntil.Some?;
        b.(plans := b.plans[p := plan.(state := state, nextDue := due, snoozedUntil := None)],
           attempts := if changed then CancelOpen(b.attempts, p, None) else b.attempts)
  }

  /** `save_contact_communication_plan` on a contact that already has a plan: its topic is rewritten without
      rescheduling the other approvals, then approved. */
  function SavePlan(b: Book, p: nat, cadence: int, automatic: bool, nextDue: Option<int>, enabled: bool, now: int,
                    checks: ApprovalChecks): Book {
    if p >= |b.plans| || b.plans[p].topic >= |b.topics| || cadence < MINIMUM_DAYS || !checks.emailOk
       || (enabled && !checks.eligible) then b
    else
      var t := b.plans[p].topic;
      Approve(b.(topics := b.topics[t := Topic(cadence, nextDue, true, automatic)]), b.plans[p].contact, t, enabled,
              now, checks)
  }

  predicate Snoozing(plan: Plan, now: int) {
    plan.snoozedUntil.Some? && plan.snoozedUntil.value > now
  }

  /** `set_contact_communication_plan_state`; a snooze that still runs does not prevent the activation. */
  function SetState(b: Book, p: nat, state: PlanState, now: int, checks: ApprovalChecks): Book {
    if p >= |b.plans| || b.plans[p].topic >= |b.topics| then b
    else
      var plan, topic := b.plans[p], b.topics[b.plans[p].topic];
      if state.Active? then
        if !checks.emailOk || !topic.active || (!Snoozing(plan, now) && !checks.eligible) then b
        else
          var due := if plan.nextDue.None? then Some(NextDueForApproval(plan, topic, now)) else plan.nextDue;
          b.(plans := b.plans[p := plan.(state := Active, nextDue := due,
                                         snoozedUntil := if Snoozing(plan, now) then plan.snoozedUntil else None)])
      else
        b.(plans := b.plans[p := plan.(state := state, nextDue := if state.Disabled? then None else plan.nextDue)],
           attempts := CancelOpen(b.attempts, p, None))
  }

  /** `snooze_contact_communication_plan`: the due date becomes the chosen one, earlier or later. */
  function Snooze(b: Book, p: nat, until: int, now: int): Book {
    if p >= |b.plans| || until <= now then b
    else
      b.(plans := b.plans[p := b.plans[p].(snoozedUntil := Some(until), nextDue := Some(until))],
         attempts := CancelOpen(b.attempts, p, None))
  }

  function Moved(b: Book, contact: nat, at: int, p: nat): Plan
    requires WellFormed(b) && p < |b.plans|
  {
    if b.plans[p].contact == contact
    then AfterInteraction(b.plans[p], b.topics[b.plans[p].topic].cadence, at) else b.plans[p]
  }

  function Touched(b: Book, contact: nat, at: int, k: Key): Attempt
    requires WellFormed(b) && k in b.attempts
  {
    var plan := b.plans[k.plan];
    if plan.contact == contact
       && Withdraws(k, b.attempts[k], k.plan, Some(DueAfterInteraction(plan, b.topics[plan.topic].cadence, at)))
    then Cancelled(b.attempts[k]) else b.attempts[k]
  }

  /** `record_genuine_contact_interaction`: every plan of the contact moves, and attempts before the new due date
      are withdrawn. */
  function Interaction(b: Book, contact: nat, at: int): Book
    requires WellFormed(b)
  {
    b.(plans := seq(|b.plans|, p requires 0 <= p < |b.plans| => Moved(b, contact, at, p)),
       attempts := map k | k in b.attempts :: Touched(b, contact, at, k))
  }

  // ---------- transactions over attempts ----------

  predicate IsDue(b: Book, p: nat, now: int)
    requires p < |b.plans|
  {
    var plan := b.plans[p];
    plan.state.Active? && plan.topic < |b.topics| && b.topics[plan.topic].active
    && plan.nextDue.Some? && plan.nextDue.value <= now && !Snoozing(plan, now)
  }

  /** One turn of `create_due_scheduled_attempts`, with its re-check under the lock. */
  function CreateAttempt(b: Book, p: nat, now: int): Book {
    if p >= |b.plans| || !IsDue(b, p, now) || Key(p, b.plans[p].nextDue.value) in b.attempts then b
    else b.(attempts := b.attempts[Key(p, b.plans[p].nextDue.value) := Attempt(Due, None, None)])
  }

  function WithState(b: Book, k: Key, state: AttemptState): Book
    requires k in b.attempts
  {
    b.(attempts := b.attempts[k := b.attempts[k].(state := state)])
  }

  function WithOutbound(b: Book, k: Key, state: AttemptState, o: Outbound): Book
    requires k in b.attempts
  {
    b.(attempts := b.attempts[k := b.attempts[k].(state := state, outbound := Some(o))])
  }

  /** The last transaction of `process_scheduled_contact_attempt` on a usable draft. The attempt's own state is not
      looked at again; a message already there is kept. */
  function Draft(b: Book, k: Key, now: int): Book
    requires WellFormed(b)
  {
    if k !in b.attempts || b.attempts[k].outbound.Some? then b
    else
      var plan := b.plans[k.plan];
      var topic := b.topics[plan.topic];
      if plan.nextDue != Some(k.due) then WithState(b, k, AttemptCancelled)
      else if !plan.state.Active? || !topic.active || Snoozing(plan, now) then WithState(b, k, Ineligible)
      else if topic.automatic then WithOutbound(b, k, Authorized, Outbound(Queued, None, None))
      else WithOutbound(b, k, DraftReview, Outbound(ReviewReady, None, None))
  }

  /** `authorize_scheduled_contact_attempt`. */
  function AuthorizeDraft(b: Book, k: Key): Book {
    if k in b.attempts && b.attempts[k].state.DraftReview? && b.attempts[k].outbound.Some?
       && b.attempts[k].outbound.value.state.ReviewReady?
    then WithOutbound(b, k, Authorized, b.attempts[k].outbound.value.(state := Queued)) else b
  }

  predicate OutboundIs(b: Book, k: Key, states: set<OutState>) {
    k in b.attempts && b.attempts[k].outbound.Some? && b.attempts[k].outbound.value.state in states
  }

  /** The part of the delivery gate that looks at the plan. */
  predicate MayLeave(b: Book, k: Key, now: int)
    requires WellFormed(b)
  {
    && OutboundIs(b, k, {Queued}) && b.attempts[k].state.Authorized?
    && b.plans[k.plan].state.Active? && b.plans[k.plan].nextDue == Some(k.due)
    && b.topics[b.plans[k.plan].topic].active && !Snoozing(b.plans[k.plan], now)
  }

  function SetOut(b: Book, k: Key, o: Outbound): Book
    requires k in b.attempts
  {
    b.(attempts := b.attempts[k := b.attempts[k].(outbound := Some(o))])
  }

  function DueAfterSend(topic: Topic, sentAt: int): (due: int)
    ensures due >= sentAt + topic.cadence * DAY
    ensures topic.nextDue.Some? ==> due >= topic.nextDue.value
  {
    var candidates := [sentAt + topic.cadence * DAY, if topic.nextDue.Some? then topic.nextDue.value else sentAt];
    assert candidates[0] == sentAt + topic.cadence * DAY;
    assert topic.nextDue.Some? ==> candidates[1] == topic.nextDue.value;
    MaxOf(candidates)
  }

  function SentPlan(plan: Plan, topic: Topic, sentAt: int): Plan {
    plan.(lastSent := Some(sentAt), snoozedUntil := None, nextDue := Some(DueAfterSend(topic, sentAt)))
  }

  /** When the message of a completed attempt counts as sent. */
  function SentTime(o: Outbound, now: int): int {
    if o.sentAt.Some? then o.sentAt.value else now
  }

  /** A message that ended without being sent goes to a person. */
  predicate EndedBadly(b: Book, k: Key) {
    OutboundIs(b, k, {SendFailed, Blocked, OutCancelled})
  }

  /** `complete_scheduled_contact_attempt`: the plan learns of a sent message; other endings open a human task, and
      raise when that is refused. Neither the state of the attempt nor any earlier send is looked at. */
  function Complete(b: Book, k: Key, now: int, taskOpens: bool): Book
    requires WellFormed(b)
  {
    if OutboundIs(b, k, {Sent}) then
      var sentAt := SentTime(b.attempts[k].outbound.value, now);
      b.(plans := b.plans[k.plan := SentPlan(b.plans[k.plan], b.topics[b.plans[k.plan].topic], sentAt)],
         attempts := b.attempts[k := b.attempts[k].(state := AttemptSent, recorded := Some(sentAt))])
    else if EndedBadly(b, k) && taskOpens then WithState(b, k, HumanRequired)
    else b
  }
}
