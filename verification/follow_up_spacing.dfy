/**
 Follow-up spacing over whole runs of the scheduled contacts.

 The clock only moves forward and one worker at a time drives a message. A completion may come for any attempt at
 any time, again and again. `KeepsSpacing` and `Undisturbed` are the exact conditions under which one step keeps what
 the spacing of sends rests on.
 */
module FollowUpSpacing {
  import opened Common
  import opened Scheduled

  datatype World = World(book: Book, clock: int)

  datatype Op =
    | DoNewTopic(topic: Topic)
    | DoSaveTopic(t: nat, topic: Topic, textChanged: bool)
    | DoApprove(contact: nat, t: nat, enabled: bool, checks: ApprovalChecks)
    | DoSavePlan(p: nat, cadence: int, automatic: bool, nextDue: Option<int>, enabled: bool, checks: ApprovalChecks)
    | DoSetState(p: nat, state: PlanState, checks: ApprovalChecks)
    | DoSnooze(p: nat, until: int)
    | DoInteraction(contact: nat, at: int)
    | DoCreateAttempt(p: nat)
    | DoMark(k: Key, mark: AttemptState)
    | DoDraft(k: Key)
    | DoAuthorize(k: Key)
    | DoBlock(k: Key)
    | HandOver(k: Key)
    | Doubt(k: Key)
    | Fail(k: Key)
    | Confirm(k: Key)
    | DoComplete(k: Key, taskOpens: bool)
    | Tick(clock: int)

  /** A mark may land on an attempt in any state: the first transactions of the processing do not look again. */
  predicate Enabled(w: World, op: Op)
    requires WellFormed(w.book)
  {
    match op
    case DoMark(k, state) => k in w.book.attempts && state in {HumanRequired, AttemptCancelled, Ineligible}
    case DoBlock(k) => OutboundIs(w.book, k, {Queued})
    case HandOver(k) => MayLeave(w.book, k, w.clock)
    case Doubt(k) => OutboundIs(w.book, k, {Sending, Reconciling})
    case Fail(k) => OutboundIs(w.book, k, {Sending, Reconciling})
    case Confirm(k) => OutboundIs(w.book, k, {Sending, Reconciling})
    case Tick(clock) => w.clock <= clock
    case _ => true
  }

  function BookStep(w: World, op: Op): Book
    requires WellFormed(w.book) && Enabled(w, op)
  {
    var b, now := w.book, w.clock;
    match op
    case DoNewTopic(topic) => NewTopic(b, topic)
    case DoSaveTopic(t, topic, textChanged) => SaveTopic(b, t, topic, textChanged, now)
    case DoApprove(c, t, enabled, checks) => Approve(b, c, t, enabled, now, checks)
    case DoSavePlan(p, cadence, automatic, nextDue, enabled, checks) =>
      SavePlan(b, p, cadence, automatic, nextDue, enabled, now, checks)
    case DoSetState(p, state, checks) => SetState(b, p, state, now, checks)
    case DoSnooze(p, until) => Snooze(b, p, until, now)
    case DoInteraction(c, at) => Interaction(b, c, at)
    case DoCreateAttempt(p) => CreateAttempt(b, p, now)
    case DoMark(k, state) => WithState(b, k, state)
    case DoDraft(k) => Draft(b, k, now)
    case DoAuthorize(k) => AuthorizeDraft(b, k)
    case DoBlock(k) => SetOut(b, k, b.attempts[k].outbound.value.(state := Blocked))
    case HandOver(k) => SetOut(b, k, Outbound(Sending, Some(now), None))
    case Doubt(k) => SetOut(b, k, b.attempts[k].outbound.value.(state := Reconciling))
    case Fail(k) => SetOut(b, k, b.attempts[k].outbound.value.(state := SendFailed))
    case Confirm(k) => SetOut(b, k, b.attempts[k].outbound.value.(state := Sent, sentAt := Some(now)))
    case DoComplete(k, taskOpens) => Complete(b, k, now, taskOpens)
    case Tick(_) => b
  }

  function Step(w: World, op: Op): World
    requires WellFormed(w.book) && Enabled(w, op)
  {
    World(BookStep(w, op), if op.Tick? then op.clock else w.clock)
  }

  // ---------- the spacing of due dates ----------

  predicate SpacedPlan(plan: Plan) {
    plan.nextDue.Some? && plan.lastSent.Some? ==> plan.nextDue.value >= plan.lastSent.value + MINIMUM_DAYS * DAY
  }

  ghost predicate Spaced(plans: seq<Plan>) {
    forall p :: 0 <= p < |plans| ==> SpacedPlan(plans[p])
  }

  /** No send on record is younger than what its plan calls the last one. */
  ghost predicate Latest(b: Book)
    requires WellFormed(b)
  {
    forall k :: k in b.attempts ==> SentBy(b.attempts[k].recorded, b.plans[k.plan].lastSent)
  }

  /** Every due date is a week after the last send, and the last send really is the last. */
  ghost predicate TrulySpaced(b: Book)
    requires WellFormed(b)
  {
    Spaced(b.plans) && Latest(b)
  }

  /** A snooze may not point earlier than a week after the last send; an interaction may not be so old that a plan
      without a due date gets one too early; a completion may not bring back a send older than the last one. Every
      other step is fine. */
  predicate KeepsSpacing(w: World, op: Op)
    requires WellFormed(w.book)
  {
    match op
    case DoSnooze(p, until) =>
      p < |w.book.plans| && until > w.clock && w.book.plans[p].lastSent.Some? ==>
        until >= w.book.plans[p].lastSent.value + MINIMUM_DAYS * DAY
    case DoInteraction(c, at) =>
      forall p :: 0 <= p < |w.book.plans| && w.book.plans[p].contact == c ==>
        InteractionFits(w.book.plans[p], w.book.topics[w.book.plans[p].topic].cadence, at)
    case DoComplete(k, _) => OutboundIs(w.book, k, {Sent}) ==> NotOvertaken(w, k)
    case _ => true
  }

  /** The plan has seen no send after this one. */
  predicate NotOvertaken(w: World, k: Key)
    requires WellFormed(w.book) && OutboundIs(w.book, k, {Sent})
  {
    SentBy(w.book.plans[k.plan].lastSent, Some(SentTime(w.book.attempts[k].outbound.value, w.clock)))
  }

  predicate SentBy(x: Option<int>, limit: Option<int>) {
    x.Some? ==> limit.Some? && x.value <= limit.value
  }

  predicate InteractionFits(plan: Plan, cadence: int, at: int) {
    plan.lastSent.None? || plan.nextDue.Some?
    || at + cadence * DAY >= plan.lastSent.value + MINIMUM_DAYS * DAY
    || (plan.snoozedUntil.Some? && plan.snoozedUntil.value >= plan.lastSent.value + MINIMUM_DAYS * DAY)
  }

  lemma RecentInteractionFits(plan: Plan, cadence: int, at: int)
    requires cadence >= MINIMUM_DAYS && (plan.lastSent.Some? ==> at >= plan.lastSent.value)
    ensures InteractionFits(plan, cadence, at)
  {
  }

  // ---------- what one step may change ----------

  predicate HandedOver(a: Attempt) {
    a.outbound.Some? && a.outbound.value.handedAt.Some?
  }

  predicate Confirmed(a: Attempt) {
    a.outbound.Some? && a.outbound.value.sentAt.Some?
  }

  /** Handed over, perhaps delivered, and the plan does not know yet. */
  predicate Open(a: Attempt) {
    HandedOver(a) && !a.outbound.value.state.SendFailed? && a.recorded.None?
  }

  /** No due date moves between a hand-off and its completion. */
  ghost predicate Undisturbed(w: World, op: Op)
    requires WellFormed(w.book) && Enabled(w, op)
  {
    forall k :: k in w.book.attempts && Open(w.book.attempts[k]) && !(op.DoComplete? && op.k == k) ==>
      k.plan < |BookStep(w, op).plans| && BookStep(w, op).plans[k.plan].nextDue == w.book.plans[k.plan].nextDue
  }

  // ---------- the invariant ----------

  /** Rows tell a consistent story about one message, and nothing lies in the future. */
  predicate RowOk(a: Attempt, clock: int) {
    && (a.outbound.Some? ==>
          var o := a.outbound.value;
          && (o.handedAt.Some? <==> o.state in {Sending, Reconciling, Sent, SendFailed})
          && (o.sentAt.Some? <==> o.state.Sent?)
          && (o.handedAt.Some? ==> o.handedAt.value <= clock)
          && (o.sentAt.Some? ==> o.handedAt.value <= o.sentAt.value <= clock))
    && (a.recorded.Some? ==> Confirmed(a) && a.recorded == a.outbound.value.sentAt)
  }

  /** An open hand-off holds its plan's due date and came a week after the last recorded send. */
  predicate OpenOk(k: Key, a: Attempt, plan: Plan) {
    Open(a) ==>
      && plan.nextDue == Some(k.due)
      && (plan.lastSent.Some? ==> a.outbound.value.handedAt.value >= plan.lastSent.value + MINIMUM_DAYS * DAY)
  }

  ghost predicate Rows(w: World)
    requires WellFormed(w.book)
  {
    forall k :: k in w.book.attempts ==>
      && k.due <= w.clock
      && RowOk(w.book.attempts[k], w.clock)
      && SentBy(w.book.attempts[k].recorded, w.book.plans[k.plan].lastSent)
      && OpenOk(k, w.book.attempts[k], w.book.plans[k.plan])
  }

  predicate WeekApart(a: Attempt, b: Attempt)
    requires HandedOver(a) && HandedOver(b) && Confirmed(a) && Confirmed(b)
  {
    || a.outbound.value.handedAt.value >= b.outbound.value.sentAt.value + MINIMUM_DAYS * DAY
    || b.outbound.value.handedAt.value >= a.outbound.value.sentAt.value + MINIMUM_DAYS * DAY
  }

  predicate Sends(a: Attempt) {
    HandedOver(a) && Confirmed(a)
  }

  /** Two different sends of one plan. */
  predicate TwoSends(attempts: map<Key, Attempt>, j: Key, k: Key)
    requires j in attempts && k in attempts
  {
    j != k && j.plan == k.plan && Sends(attempts[j]) && Sends(attempts[k])
  }

  ghost predicate Apart(attempts: map<Key, Attempt>) {
    forall j, k :: j in attempts && k in attempts && TwoSends(attempts, j, k) ==> WeekApart(attempts[j], attempts[k])
  }

  ghost predicate OnRecord(b: Book, p: nat)
    requires p < |b.plans|
  {
    exists k :: k in b.attempts && k.plan == p && b.attempts[k].recorded == b.plans[p].lastSent
  }

  /** What a plan calls its last send is a send on record, and not in the future. */
  ghost predicate LastSentOk(w: World) {
    forall p :: 0 <= p < |w.book.plans| && w.book.plans[p].lastSent.Some? ==>
      w.book.plans[p].lastSent.value <= w.clock && OnRecord(w.book, p)
  }

  ghost predicate Inv(w: World) {
    WellFormed(w.book) && Spaced(w.book.plans) && Rows(w) && LastSentOk(w) && Apart(w.book.attempts)
  }

  // ---------- quiet steps: nothing is handed over, confirmed or recorded ----------

  predicate QuietRow(a: Attempt, a': Attempt, clock: int) {
    && a'.recorded == a.recorded
    && RowOk(a', clock)
    && (Open(a') ==> Open(a) && a'.outbound.value.handedAt == a.outbound.value.handedAt)
    && (Sends(a') ==> a'.outbound == a.outbound)
  }

  predicate NewRow(k: Key, a: Attempt, plans: seq<Plan>, clock: int) {
    k.due <= clock && a == Attempt(Due, None, None)
  }

  ghost predicate QuietRows(b: Book, b': Book, clock: int) {
    && (forall k :: k in b.attempts ==> k in b'.attempts && QuietRow(b.attempts[k], b'.attempts[k], clock))
    && (forall k :: k in b'.attempts && k !in b.attempts ==> NewRow(k, b'.attempts[k], b'.plans, clock))
  }

  ghost predicate NoneOpen(b: Book, p: nat) {
    forall k :: k in b.attempts && k.plan == p ==> !Open(b.attempts[k])
  }

  ghost predicate QuietPlans(b: Book, b': Book) {
    && |b.plans| <= |b'.plans|
    && (forall p :: 0 <= p < |b.plans| ==>
          && b'.plans[p].lastSent == b.plans[p].lastSent
          && (b'.plans[p].nextDue == b.plans[p].nextDue || NoneOpen(b, p)))
    && (forall p :: |b.plans| <= p < |b'.plans| ==> b'.plans[p].lastSent.None?)
  }

  lemma QuietKeepsRows(w: World, b': Book)
    requires WellFormed(w.book) && Rows(w) && WellFormed(b') && QuietRows(w.book, b', w.clock)
    requires QuietPlans(w.book, b')
    ensures Rows(World(b', w.clock))
  {
    forall k | k in b'.attempts
      ensures && k.due <= w.clock
              && RowOk(b'.attempts[k], w.clock)
              && SentBy(b'.attempts[k].recorded, b'.plans[k.plan].lastSent)
              && OpenOk(k, b'.attempts[k], b'.plans[k.plan])
    {
      if k in w.book.attempts {
        assert QuietRow(w.book.attempts[k], b'.attempts[k], w.clock);
        assert OpenOk(k, w.book.attempts[k], w.book.plans[k.plan]);
      } else {
        assert NewRow(k, b'.attempts[k], b'.plans, w.clock);
      }
    }
  }

  lemma QuietKeepsApart(b: Book, b': Book, clock: int)
    requires Apart(b.attempts) && QuietRows(b, b', clock)
    ensures Apart(b'.attempts)
  {
    forall j, k | j in b'.attempts && k in b'.attempts && TwoSends(b'.attempts, j, k)
      ensures WeekApart(b'.attempts[j], b'.attempts[k])
    {
      assert j in b.attempts && k in b.attempts;
      assert QuietRow(b.attempts[j], b'.attempts[j], clock) && QuietRow(b.attempts[k], b'.attempts[k], clock);
      assert TwoSends(b.attempts, j, k);
    }
  }

  lemma QuietKeepsInv(w: World, b': Book)
    requires Inv(w) && WellFormed(b') && Spaced(b'.plans)
    requires QuietRows(w.book, b', w.clock) && QuietPlans(w.book, b')
    ensures Inv(World(b', w.clock))
  {
    QuietKeepsApart(w.book, b', w.clock);
    QuietKeepsRows(w, b');
    QuietKeepsLastSent(w, b');
    hide QuietRows, QuietPlans, Apart, Rows, Spaced, WellFormed, LastSentOk;
  }

  lemma QuietKeepsLastSent(w: World, b': Book)
    requires LastSentOk(w) && QuietRows(w.book, b', w.clock) && QuietPlans(w.book, b')
    ensures LastSentOk(World(b', w.clock))
  {
    hide RowOk;
    forall p | 0 <= p < |b'.plans| && b'.plans[p].lastSent.Some?
      ensures b'.plans[p].lastSent.value <= w.clock && OnRecord(b', p)
    {
      assert p < |w.book.plans| && OnRecord(w.book, p);
      var k :| k in w.book.attempts && k.plan == p && w.book.attempts[k].recorded == w.book.plans[p].lastSent;
      assert QuietRow(w.book.attempts[k], b'.attempts[k], w.clock);
    }
  }

  lemma RowsAreQuiet(a: Attempt, clock: int, state: AttemptState)
    requires RowOk(a, clock)
    ensures QuietRow(a, a, clock) && QuietRow(a, Cancelled(a), clock) && QuietRow(a, a.(state := state), clock)
  {
  }

  /** Plans are never deleted and forget no send. */
  ghost predicate SendsStay(b: Book, b': Book) {
    && |b.plans| <= |b'.plans|
    && (forall p :: 0 <= p < |b.plans| ==> b'.plans[p].lastSent == b.plans[p].lastSent)
    && (forall p :: |b.plans| <= p < |b'.plans| ==> b'.plans[p].lastSent.None?)
  }

  lemma EditsKeepSends(w: World, op: Op)
    requires WellFormed(w.book) && Enabled(w, op)
    requires op.DoSaveTopic? || op.DoApprove? || op.DoSetState? || op.DoSnooze?
    ensures SendsStay(w.book, BookStep(w, op))
  {
    hide NextDueForApproval, CancelOpen, Cancelled, Withdraws;
  }

  lemma InteractionKeepsSends(w: World, c: nat, at: int)
    requires WellFormed(w.book)
    ensures SendsStay(w.book, BookStep(w, DoInteraction(c, at)))
  {
    hide DueAfterInteraction, Touched;
  }

  lemma SavePlanKeepsSends(w: World, op: Op)
    requires WellFormed(w.book) && op.DoSavePlan? && Enabled(w, op)
    ensures SendsStay(w.book, BookStep(w, op))
  {
    hide NextDueForApproval, CancelOpen;
  }

  lemma SamePlansKeepSends(b: Book, b': Book)
    requires b'.plans == b.plans
    ensures SendsStay(b, b')
  {
  }

  /** Only a completion rewrites a last send. */
  lemma StepKeepsSends(w: World, op: Op)
    requires WellFormed(w.book) && Enabled(w, op) && !op.DoComplete?
    ensures SendsStay(w.book, BookStep(w, op))
  {
    hide SendsStay, WellFormed, SaveTopic, Approve, SavePlan, SetState, Snooze, Interaction;
    match op
    case DoInteraction(c, at) => InteractionKeepsSends(w, c, at);
    case DoSavePlan(_, _, _, _, _, _) => SavePlanKeepsSends(w, op);
    case DoSaveTopic(_, _, _) => EditsKeepSends(w, op);
    case DoApprove(_, _, _, _) => EditsKeepSends(w, op);
    case DoSetState(_, _, _) => EditsKeepSends(w, op);
    case DoSnooze(_, _) => EditsKeepSends(w, op);
    case DoComplete(_, _) =>
    case _ => RowOpsKeepPlans(w, op); SamePlansKeepSends(w.book, BookStep(w, op));
  }

  lemma PlansAreQuiet(w: World, op: Op)
    requires WellFormed(w.book) && Enabled(w, op) && Undisturbed(w, op) && !op.DoComplete?
    ensures QuietPlans(w.book, BookStep(w, op))
  {
    hide BookStep, WellFormed, Open;
    StepKeepsSends(w, op);
  }

  lemma TopicRowsAreQuiet(w: World, t: nat, topic: Topic, textChanged: bool)
    requires WellFormed(w.book) && Rows(w)
    ensures QuietRows(w.book, SaveTopic(w.book, t, topic, textChanged, w.clock), w.clock)
  {
    hide QuietRow, RowOk, OpenOk, Cancelled, SentBy, RescheduledPlan;
    forall k | k in w.book.attempts
      ensures QuietRow(w.book.attempts[k], w.book.attempts[k], w.clock)
              && QuietRow(w.book.attempts[k], Cancelled(w.book.attempts[k]), w.clock)
    {
      RowsAreQuiet(w.book.attempts[k], w.clock, Due);
    }
  }

  lemma CancelIsQuiet(w: World, p: nat, before: Option<int>, b': Book)
    requires WellFormed(w.book) && Rows(w)
    requires b'.attempts == CancelOpen(w.book.attempts, p, before) || b'.attempts == w.book.attempts
    ensures QuietRows(w.book, b', w.clock)
  {
    hide QuietRow, RowOk, OpenOk, Cancelled, SentBy;
    forall k | k in w.book.attempts
      ensures QuietRow(w.book.attempts[k], w.book.attempts[k], w.clock)
              && QuietRow(w.book.attempts[k], Cancelled(w.book.attempts[k]), w.clock)
    {
      RowsAreQuiet(w.book.attempts[k], w.clock, Due);
    }
  }

  lemma InteractionRowsAreQuiet(w: World, c: nat, at: int)
    requires WellFormed(w.book) && Rows(w)
    ensures QuietRows(w.book, Interaction(w.book, c, at), w.clock)
  {
    hide QuietRow, RowOk, OpenOk, Cancelled, SentBy, Moved;
    forall k | k in w.book.attempts
      ensures QuietRow(w.book.attempts[k], w.book.attempts[k], w.clock)
              && QuietRow(w.book.attempts[k], Cancelled(w.book.attempts[k]), w.clock)
    {
      RowsAreQuiet(w.book.attempts[k], w.clock, Due);
    }
  }

  /** A step that rewrites at most one row. */
  lemma OneRowIsQuiet(w: World, k: Key, a': Attempt, b': Book)
    requires WellFormed(w.book) && Rows(w)
    requires k in w.book.attempts && QuietRow(w.book.attempts[k], a', w.clock)
    requires b'.attempts == w.book.attempts[k := a']
    ensures QuietRows(w.book, b', w.clock)
  {
    hide QuietRow, RowOk, OpenOk, SentBy;
    forall j | j in w.book.attempts ensures QuietRow(w.book.attempts[j], w.book.attempts[j], w.clock) {
      RowsAreQuiet(w.book.attempts[j], w.clock, Due);
    }
  }

  lemma DraftIsQuiet(w: World, k: Key)
    requires WellFormed(w.book) && k in w.book.attempts && RowOk(w.book.attempts[k], w.clock)
    ensures var a' := Draft(w.book, k, w.clock).attempts[k];
            QuietRow(w.book.attempts[k], a', w.clock)
            && Draft(w.book, k, w.clock).attempts == w.book.attempts[k := a']
  {
  }

  lemma AuthorizeIsQuiet(w: World, k: Key)
    requires k in w.book.attempts && RowOk(w.book.attempts[k], w.clock)
    ensures var a' := AuthorizeDraft(w.book, k).attempts[k];
            QuietRow(w.book.attempts[k], a', w.clock)
            && AuthorizeDraft(w.book, k).attempts == w.book.attempts[k := a']
  {
  }

  lemma OutcomeIsQuiet(a: Attempt, state: OutState, clock: int)
    requires RowOk(a, clock) && a.outbound.Some?
    requires || (state.Blocked? && a.outbound.value.state.Queued?)
             || (state in {Reconciling, SendFailed} && a.outbound.value.state in {Sending, Reconciling})
    ensures QuietRow(a, a.(outbound := Some(a.outbound.value.(state := state))), clock)
  {
  }

  lemma SingleRowOps(w: World, op: Op)
    requires WellFormed(w.book) && Rows(w) && Enabled(w, op)
    requires op.DoMark? || op.DoDraft? || op.DoAuthorize? || op.DoBlock? || op.Doubt? || op.Fail?
    ensures QuietRows(w.book, BookStep(w, op), w.clock)
  {
    hide QuietRow, RowOk, QuietRows, Draft, AuthorizeDraft, OpenOk, SentBy, SaveTopic, Approve, SavePlan, SetState,
         Snooze, Interaction, CreateAttempt, Complete, MayLeave;
    var k, b' := op.k, BookStep(w, op);
    if k in w.book.attempts {
      var a := w.book.attempts[k];
      match op {
        case DoMark(_, mark) => RowsAreQuiet(a, w.clock, mark);
        case DoDraft(_) => DraftIsQuiet(w, k);
        case DoAuthorize(_) => AuthorizeIsQuiet(w, k);
        case DoBlock(_) => OutcomeIsQuiet(a, Blocked, w.clock);
        case Doubt(_) => OutcomeIsQuiet(a, Reconciling, w.clock);
        case Fail(_) => OutcomeIsQuiet(a, SendFailed, w.clock);
        case _ =>
      }
      OneRowIsQuiet(w, k, b'.attempts[k], b');
    } else {
      UnknownKey(w, op);
      NoRowIsQuiet(w, b');
    }
  }

  lemma UnknownKey(w: World, op: Op)
    requires WellFormed(w.book) && (op.DoDraft? || op.DoAuthorize?) && op.k !in w.book.attempts
    ensures BookStep(w, op) == w.book
  {
  }

  lemma NoRowIsQuiet(w: World, b': Book)
    requires WellFormed(w.book) && Rows(w)
    requires b'.attempts == w.book.attempts
    ensures QuietRows(w.book, b', w.clock)
  {
    CancelIsQuiet(w, 0, None, b');
  }

  lemma CreateIsQuiet(w: World, p: nat)
    requires WellFormed(w.book) && Rows(w)
    ensures QuietRows(w.book, CreateAttempt(w.book, p, w.clock), w.clock)
  {
    NoRowIsQuiet(w, w.book);
    hide QuietRow, RowOk, OpenOk, SentBy;
  }

  predicate Loud(op: Op) {
    op.HandOver? || op.Confirm? || op.DoComplete?
  }

  lemma RowsAreQuietAfter(w: World, op: Op)
    requires WellFormed(w.book) && Rows(w) && Enabled(w, op) && !Loud(op)
    ensures QuietRows(w.book, BookStep(w, op), w.clock)
  {
    hide QuietRows, Rows, CancelOpen, WellFormed, Interaction, SaveTopic, NextDueForApproval, Draft;
    match op
    case DoSaveTopic(t, topic, textChanged) => TopicRowsAreQuiet(w, t, topic, textChanged);
    case DoNewTopic(_) => NoRowIsQuiet(w, BookStep(w, op));
    case DoApprove(c, t, _, _) => CancelIsQuiet(w, FindPlan(w.book.plans, c, t), None, BookStep(w, op));
    case DoSavePlan(p, _, _, _, _, _) => SavePlanIsQuiet(w, op);
    case DoSetState(p, _, _) => CancelIsQuiet(w, p, None, BookStep(w, op));
    case DoSnooze(p, _) => CancelIsQuiet(w, p, None, BookStep(w, op));
    case DoInteraction(c, at) => InteractionRowsAreQuiet(w, c, at);
    case DoCreateAttempt(p) => CreateIsQuiet(w, p);
    case Tick(_) => NoRowIsQuiet(w, BookStep(w, op));
    case _ => SingleRowOps(w, op);
  }

  lemma SavePlanIsQuiet(w: World, op: Op)
    requires WellFormed(w.book) && Rows(w) && Enabled(w, op) && op.DoSavePlan?
    ensures QuietRows(w.book, BookStep(w, op), w.clock)
  {
    hide QuietRows, Rows, CancelOpen, NextDueForApproval, RowOk;
    if op.p < |w.book.plans| {
      CancelIsQuiet(w, FindPlan(w.book.plans, w.book.plans[op.p].contact, w.book.plans[op.p].topic), None,
                    BookStep(w, op));
    } else {
      NoRowIsQuiet(w, BookStep(w, op));
    }
  }

  lemma EditsStayWellFormed(b: Book, op: Op, now: int)
    requires WellFormed(b)
    ensures match op
            case DoSaveTopic(t, topic, textChanged) => WellFormed(SaveTopic(b, t, topic, textChanged, now))
            case DoApprove(c, t, enabled, checks) => WellFormed(Approve(b, c, t, enabled, now, checks))
            case DoSetState(p, state, checks) => WellFormed(SetState(b, p, state, now, checks))
            case DoSnooze(p, until) => WellFormed(Snooze(b, p, until, now))
            case DoInteraction(c, at) => WellFormed(Interaction(b, c, at))
            case _ => true
  {
    hide NextDueForApproval, DueAfterInteraction, Cancelled, Withdraws;
  }

  lemma StaysWellFormed(w: World, op: Op)
    requires WellFormed(w.book) && Enabled(w, op)
    ensures WellFormed(BookStep(w, op))
  {
    EditsStayWellFormed(w.book, op, w.clock);
    match op {
      case DoSaveTopic(_, _, _) =>
      case DoApprove(_, _, _, _) =>
      case DoSavePlan(p, cadence, automatic, nextDue, enabled, checks) => SavePlanStaysWellFormed(w, op);
      case DoSetState(_, _, _) =>
      case DoSnooze(_, _) =>
      case DoInteraction(_, _) =>
      case _ => hide MayLeave, Approve, SaveTopic, SetState, Interaction;
    }
  }

  lemma SavePlanStaysWellFormed(w: World, op: Op)
    requires WellFormed(w.book) && Enabled(w, op) && op.DoSavePlan?
    ensures WellFormed(BookStep(w, op))
  {
    hide Approve;
    if op.p < |w.book.plans| && op.cadence >= MINIMUM_DAYS {
      var t := w.book.plans[op.p].topic;
      var b := w.book.(topics := w.book.topics[t := Topic(op.cadence, op.nextDue, true, op.automatic)]);
      EditsStayWellFormed(b, DoApprove(b.plans[op.p].contact, t, op.enabled, op.checks), w.clock);
    }
  }

  // ---------- spacing, step by step ----------

  lemma TopicKeepsSpaced(b: Book, t: nat, topic: Topic, textChanged: bool, now: int)
    requires WellFormed(b) && Spaced(b.plans)
    ensures Spaced(SaveTopic(b, t, topic, textChanged, now).plans)
  {
    hide NextDueForApproval, Cancelled, Withdraws;
  }

  lemma ApproveKeepsSpaced(b: Book, c: nat, t: nat, enabled: bool, now: int, checks: ApprovalChecks)
    requires WellFormed(b) && Spaced(b.plans)
    ensures Spaced(Approve(b, c, t, enabled, now, checks).plans)
  {
    hide NextDueForApproval, CancelOpen;
  }

  lemma SavePlanKeepsSpaced(w: World, op: Op)
    requires WellFormed(w.book) && Enabled(w, op) && op.DoSavePlan? && Spaced(w.book.plans)
    ensures Spaced(BookStep(w, op).plans)
  {
    hide Approve;
    if op.p < |w.book.plans| && op.cadence >= MINIMUM_DAYS {
      var t := w.book.plans[op.p].topic;
      var b := w.book.(topics := w.book.topics[t := Topic(op.cadence, op.nextDue, true, op.automatic)]);
      ApproveKeepsSpaced(b, b.plans[op.p].contact, t, op.enabled, w.clock, op.checks);
    }
  }

  lemma SetStateKeepsSpaced(b: Book, p: nat, state: PlanState, now: int, checks: ApprovalChecks)
    requires WellFormed(b) && Spaced(b.plans)
    ensures Spaced(SetState(b, p, state, now, checks).plans)
  {
    hide NextDueForApproval, CancelOpen;
  }

  lemma SnoozeSpacing(w: World, p: nat, until: int)
    requires WellFormed(w.book) && Spaced(w.book.plans)
    ensures Spaced(Snooze(w.book, p, until, w.clock).plans) <==> KeepsSpacing(w, DoSnooze(p, until))
  {
    hide CancelOpen;
    if p < |w.book.plans| && until > w.clock {
      assert Snooze(w.book, p, until, w.clock).plans[p].nextDue == Some(until);
    }
  }

  lemma InteractionFitsExactly(plan: Plan, cadence: int, at: int)
    requires SpacedPlan(plan)
    ensures SpacedPlan(AfterInteraction(plan, cadence, at)) <==> InteractionFits(plan, cadence, at)
  {
    var due := DueAfterInteraction(plan, cadence, at);
    assert AfterInteraction(plan, cadence, at).nextDue == Some(due);
  }

  lemma InteractionSpacing(w: World, c: nat, at: int)
    requires WellFormed(w.book) && Spaced(w.book.plans)
    ensures Spaced(Interaction(w.book, c, at).plans) <==> KeepsSpacing(w, DoInteraction(c, at))
  {
    hide Cancelled, Withdraws, InteractionFits, AfterInteraction, SpacedPlan;
    var b, plans' := w.book, Interaction(w.book, c, at).plans;
    forall p | 0 <= p < |b.plans| && b.plans[p].contact == c
      ensures SpacedPlan(plans'[p]) <==> InteractionFits(b.plans[p], b.topics[b.plans[p].topic].cadence, at)
    {
      InteractionFitsExactly(b.plans[p], b.topics[b.plans[p].topic].cadence, at);
    }
  }

  lemma CompleteKeepsSpaced(b: Book, k: Key, now: int, taskOpens: bool)
    requires WellFormed(b) && Spaced(b.plans)
    ensures Spaced(Complete(b, k, now, taskOpens).plans)
  {
    hide DueAfterSend;
    if OutboundIs(b, k, {Sent}) {
      var o, topic := b.attempts[k].outbound.value, b.topics[b.plans[k.plan].topic];
      var sentAt := SentTime(o, now);
      assert topic.cadence * DAY >= MINIMUM_DAYS * DAY;
      assert SpacedPlan(SentPlan(b.plans[k.plan], topic, sentAt));
    }
  }

  lemma RowOpsKeepPlans(w: World, op: Op)
    requires WellFormed(w.book) && Enabled(w, op)
    requires op.DoNewTopic? || op.DoCreateAttempt? || op.DoMark? || op.DoDraft? || op.DoAuthorize? || op.DoBlock?
             || op.HandOver? || op.Doubt? || op.Fail? || op.Confirm? || op.Tick?
    ensures BookStep(w, op).plans == w.book.plans
  {
  }

  /** Due dates stay a week after what their plan calls the last send. */
  lemma DueDatesStaySpaced(w: World, op: Op)
    requires WellFormed(w.book) && Enabled(w, op) && Spaced(w.book.plans)
    ensures Spaced(BookStep(w, op).plans) <==> op.DoComplete? || KeepsSpacing(w, op)
  {
    hide MayLeave, WellFormed, Spaced, SaveTopic, Approve, SavePlan, SetState, Snooze, Interaction, Complete,
         InteractionFits, NotOvertaken;
    var b, now := w.book, w.clock;
    match op
    case DoSaveTopic(t, topic, textChanged) => TopicKeepsSpaced(b, t, topic, textChanged, now);
    case DoApprove(c, t, enabled, checks) => ApproveKeepsSpaced(b, c, t, enabled, now, checks);
    case DoSavePlan(_, _, _, _, _, _) => SavePlanKeepsSpaced(w, op);
    case DoSetState(p, state, checks) => SetStateKeepsSpaced(b, p, state, now, checks);
    case DoSnooze(p, until) => SnoozeSpacing(w, p, until);
    case DoInteraction(c, at) => InteractionSpacing(w, c, at);
    case DoComplete(k, taskOpens) => CompleteKeepsSpaced(b, k, now, taskOpens);
    case _ => RowOpsKeepPlans(w, op);
  }

  lemma RowsAreLatest(w: World)
    requires WellFormed(w.book) && Rows(w)
    ensures Latest(w.book)
  {
    hide RowOk, OpenOk, SentBy;
  }

  lemma QuietKeepsLatest(w: World, b': Book)
    requires WellFormed(w.book) && WellFormed(b') && Latest(w.book)
    requires QuietRows(w.book, b', w.clock) && SendsStay(w.book, b')
    ensures Latest(b')
  {
    forall k | k in b'.attempts ensures SentBy(b'.attempts[k].recorded, b'.plans[k.plan].lastSent) {
      if k in w.book.attempts {
        assert QuietRow(w.book.attempts[k], b'.attempts[k], w.clock);
      } else {
        assert NewRow(k, b'.attempts[k], b'.plans, w.clock);
      }
    }
  }

  /** A completion keeps the last send the last exactly when its own is not overtaken. */
  lemma CompletionIsLatestExactly(w: World, k: Key, taskOpens: bool)
    requires Inv(w) && WellFormed(BookStep(w, DoComplete(k, taskOpens)))
    ensures Latest(BookStep(w, DoComplete(k, taskOpens))) <==> KeepsSpacing(w, DoComplete(k, taskOpens))
  {
    var b, b' := w.book, BookStep(w, DoComplete(k, taskOpens));
    hide Apart, Spaced, DueAfterSend, OpenOk;
    if OutboundIs(b, k, {Sent}) {
      assert RowOk(b.attempts[k], w.clock);
      if NotOvertaken(w, k) {
        forall j | j in b'.attempts ensures SentBy(b'.attempts[j].recorded, b'.plans[j.plan].lastSent) {
          assert SentBy(b.attempts[j].recorded, b.plans[j.plan].lastSent);
        }
      } else {
        assert OnRecord(b, k.plan);
        var j :| j in b.attempts && j.plan == k.plan && b.attempts[j].recorded == b.plans[k.plan].lastSent;
        assert RowOk(b.attempts[j], w.clock) && j != k;
        assert !SentBy(b'.attempts[j].recorded, b'.plans[j.plan].lastSent);
      }
    } else {
      forall j | j in b'.attempts ensures SentBy(b'.attempts[j].recorded, b'.plans[j.plan].lastSent) {
        assert SentBy(b.attempts[j].recorded, b.plans[j.plan].lastSent);
      }
    }
  }

  lemma LoudRowIsLatest(w: World, op: Op)
    requires WellFormed(w.book) && Rows(w) && Enabled(w, op) && (op.HandOver? || op.Confirm?)
    ensures WellFormed(BookStep(w, op)) && Latest(BookStep(w, op))
  {
    hide RowOk, OpenOk, SentBy;
  }

  /** The exact condition, for every step: due dates stay a week after the last send, and the last send the last, if
      and only if the step is none of the three excepted ones. */
  lemma SpacingIsKeptExactly(w: World, op: Op)
    requires Inv(w) && Enabled(w, op)
    ensures WellFormed(BookStep(w, op))
    ensures TrulySpaced(BookStep(w, op)) <==> KeepsSpacing(w, op)
  {
    hide BookStep, Rows, Spaced, Latest, Apart, LastSentOk, KeepsSpacing, Enabled, QuietRows, SendsStay;
    StaysWellFormed(w, op);
    DueDatesStaySpaced(w, op);
    RowsAreLatest(w);
    if op.DoComplete? {
      CompletionIsLatestExactly(w, op.k, op.taskOpens);
    } else if op.HandOver? || op.Confirm? {
      LoudRowIsLatest(w, op);
    } else {
      RowsAreQuietAfter(w, op);
      StepKeepsSends(w, op);
      QuietKeepsLatest(w, BookStep(w, op));
    }
  }

  // ---------- the three loud steps ----------

  /** The send `a'` is a week apart from every other send of the plan. */
  ghost predicate ApartFrom(attempts: map<Key, Attempt>, k: Key, a': Attempt)
    requires Sends(a')
  {
    forall j :: j in attempts && j != k && j.plan == k.plan && Sends(attempts[j]) ==> WeekApart(attempts[j], a')
  }

  /** Replacing one row that fits its plan. */
  lemma OneRowKeepsInv(w: World, k: Key, a': Attempt)
    requires Inv(w) && k in w.book.attempts
    requires RowOk(a', w.clock) && SentBy(a'.recorded, w.book.plans[k.plan].lastSent)
    requires OpenOk(k, a', w.book.plans[k.plan])
    requires Sends(a') ==> ApartFrom(w.book.attempts, k, a')
    requires a'.recorded == w.book.attempts[k].recorded
    ensures Inv(World(w.book.(attempts := w.book.attempts[k := a']), w.clock))
  {
    hide RowOk, OpenOk, SentBy, SpacedPlan;
    var attempts' := w.book.attempts[k := a'];
    SameRecords(w.book, attempts');
    forall i, j | i in attempts' && j in attempts' && TwoSends(attempts', i, j)
      ensures WeekApart(attempts'[i], attempts'[j])
    {
      if i != k && j != k { assert TwoSends(w.book.attempts, i, j); }
    }
  }

  lemma SameRecords(b: Book, attempts': map<Key, Attempt>)
    requires forall k :: k in b.attempts ==> k in attempts' && attempts'[k].recorded == b.attempts[k].recorded
    ensures forall p :: 0 <= p < |b.plans| && OnRecord(b, p) ==> OnRecord(b.(attempts := attempts'), p)
  {
    forall p | 0 <= p < |b.plans| && OnRecord(b, p) ensures OnRecord(b.(attempts := attempts'), p) {
      var k :| k in b.attempts && k.plan == p && b.attempts[k].recorded == b.plans[p].lastSent;
      assert attempts'[k].recorded == b.plans[p].lastSent;
    }
  }

  lemma HandOverKeepsInv(w: World, k: Key)
    requires Inv(w) && Enabled(w, HandOver(k))
    ensures Inv(Step(w, HandOver(k)))
  {
    var a' := BookStep(w, HandOver(k)).attempts[k];
    assert SpacedPlan(w.book.plans[k.plan]) && RowOk(w.book.attempts[k], w.clock);
    OneRowKeepsInv(w, k, a');
  }

  /** A message in flight is the only open one of its plan, so every other send is on record. */
  lemma ConfirmedIsApart(w: World, k: Key)
    requires Inv(w) && Enabled(w, Confirm(k))
    ensures var a' := BookStep(w, Confirm(k)).attempts[k];
            Sends(a') && RowOk(a', w.clock) && OpenOk(k, a', w.book.plans[k.plan])
            && a'.recorded.None? && ApartFrom(w.book.attempts, k, a')
  {
    var b := w.book;
    var a' := BookStep(w, Confirm(k)).attempts[k];
    hide Apart, Spaced, LastSentOk;
    assert RowOk(b.attempts[k], w.clock) && OpenOk(k, b.attempts[k], b.plans[k.plan]);
    assert Open(b.attempts[k]);
    forall j | j in b.attempts && j != k && j.plan == k.plan && Sends(b.attempts[j])
      ensures WeekApart(b.attempts[j], a')
    {
      assert RowOk(b.attempts[j], w.clock) && OpenOk(j, b.attempts[j], b.plans[j.plan]);
      assert j.due != k.due;
      assert SentBy(b.attempts[j].recorded, b.plans[k.plan].lastSent);
    }
  }

  lemma ConfirmKeepsInv(w: World, k: Key)
    requires Inv(w) && Enabled(w, Confirm(k))
    ensures Inv(Step(w, Confirm(k)))
  {
    ConfirmedIsApart(w, k);
    hide Inv, ApartFrom, RowOk, OpenOk;
    OneRowKeepsInv(w, k, BookStep(w, Confirm(k)).attempts[k]);
  }

  /** The plan records a send it had not seen, or one that still is the last. */
  lemma RecordKeepsRows(w: World, k: Key, taskOpens: bool)
    requires Inv(w) && OutboundIs(w.book, k, {Sent}) && NotOvertaken(w, k)
    requires Undisturbed(w, DoComplete(k, taskOpens))
    ensures Rows(Step(w, DoComplete(k, taskOpens)))
  {
    var b, b' := w.book, BookStep(w, DoComplete(k, taskOpens));
    hide Apart, Spaced, LastSentOk, DueAfterSend;
    assert RowOk(b.attempts[k], w.clock) && OpenOk(k, b.attempts[k], b.plans[k.plan]);
    forall j | j in b'.attempts
      ensures && j.due <= w.clock
              && RowOk(b'.attempts[j], w.clock)
              && SentBy(b'.attempts[j].recorded, b'.plans[j.plan].lastSent)
              && OpenOk(j, b'.attempts[j], b'.plans[j.plan])
    {
      assert RowOk(b.attempts[j], w.clock) && SentBy(b.attempts[j].recorded, b.plans[j.plan].lastSent);
      assert OpenOk(j, b.attempts[j], b.plans[j.plan]);
      if j != k && j.plan == k.plan && Open(b.attempts[j]) {
        assert !Open(b.attempts[k]) && SentBy(b.attempts[k].recorded, b.plans[k.plan].lastSent);
      }
    }
  }

  lemma CompleteKeepsInv(w: World, k: Key, taskOpens: bool)
    requires Inv(w) && KeepsSpacing(w, DoComplete(k, taskOpens)) && Undisturbed(w, DoComplete(k, taskOpens))
    ensures Inv(Step(w, DoComplete(k, taskOpens)))
  {
    var b, b' := w.book, BookStep(w, DoComplete(k, taskOpens));
    hide Apart, Rows, LastSentOk, Spaced, Undisturbed;
    CompleteKeepsSpaced(b, k, w.clock, taskOpens);
    StaysWellFormed(w, DoComplete(k, taskOpens));
    if OutboundIs(b, k, {Sent}) {
      RecordKeepsRows(w, k, taskOpens);
      RecordKeepsApart(w, k, taskOpens);
      RecordKeepsLastSent(w, k, taskOpens);
    } else {
      MarkKeepsInv(w, k, taskOpens);
    }
  }

  lemma MarkKeepsInv(w: World, k: Key, taskOpens: bool)
    requires Inv(w) && !OutboundIs(w.book, k, {Sent})
    ensures Inv(Step(w, DoComplete(k, taskOpens)))
  {
    var b, b' := w.book, BookStep(w, DoComplete(k, taskOpens));
    if b' != b {
      RowsAreQuiet(b.attempts[k], w.clock, HumanRequired);
      OneRowIsQuiet(w, k, b.attempts[k].(state := HumanRequired), b');
      hide QuietRow, RowOk, OpenOk, Rows, Apart, LastSentOk;
      QuietKeepsInv(w, b');
    }
  }

  lemma RecordKeepsLastSent(w: World, k: Key, taskOpens: bool)
    requires Inv(w) && OutboundIs(w.book, k, {Sent})
    ensures LastSentOk(Step(w, DoComplete(k, taskOpens)))
  {
    var b, w' := w.book, Step(w, DoComplete(k, taskOpens));
    hide Spaced, DueAfterSend, OpenOk, SentBy, Apart;
    assert RowOk(b.attempts[k], w.clock);
    forall p | 0 <= p < |w'.book.plans| && w'.book.plans[p].lastSent.Some?
      ensures w'.book.plans[p].lastSent.value <= w'.clock && OnRecord(w'.book, p)
    {
      if p == k.plan {
        assert w'.book.attempts[k].recorded == w'.book.plans[p].lastSent;
      } else {
        var j :| j in b.attempts && j.plan == p && b.attempts[j].recorded == b.plans[p].lastSent;
        assert w'.book.attempts[j] == b.attempts[j];
      }
    }
  }

  lemma RecordKeepsApart(w: World, k: Key, taskOpens: bool)
    requires Inv(w) && OutboundIs(w.book, k, {Sent})
    ensures Apart(BookStep(w, DoComplete(k, taskOpens)).attempts)
  {
    var b, b' := w.book, BookStep(w, DoComplete(k, taskOpens));
    hide Spaced, DueAfterSend, OpenOk, SentBy, WeekApart, LastSentOk;
    forall i, j | i in b'.attempts && j in b'.attempts && TwoSends(b'.attempts, i, j)
      ensures b'.attempts[i].outbound == b.attempts[i].outbound && b'.attempts[j].outbound == b.attempts[j].outbound
      ensures TwoSends(b.attempts, i, j)
    {
    }
    forall i, j | i in b'.attempts && j in b'.attempts && TwoSends(b'.attempts, i, j)
      ensures WeekApart(b'.attempts[i], b'.attempts[j])
    {
      SameOutbounds(b.attempts[i], b.attempts[j], b'.attempts[i], b'.attempts[j]);
    }
  }

  lemma SameOutbounds(a: Attempt, c: Attempt, a': Attempt, c': Attempt)
    requires Sends(a) && Sends(c) && WeekApart(a, c) && a'.outbound == a.outbound && c'.outbound == c.outbound
    ensures Sends(a') && Sends(c') && WeekApart(a', c')
  {
  }

  lemma TickKeepsInv(w: World, clock: int)
    requires Inv(w) && w.clock <= clock
    ensures Inv(World(w.book, clock))
  {
    hide WellFormed, Spaced, Apart;
    assert forall k :: k in w.book.attempts ==> RowOk(w.book.attempts[k], w.clock);
  }

  // ---------- steps ----------

  lemma StepKeepsInv(w: World, op: Op)
    requires Inv(w) && Enabled(w, op) && KeepsSpacing(w, op) && Undisturbed(w, op)
    ensures Inv(Step(w, op))
  {
    hide Inv, BookStep, KeepsSpacing, Undisturbed, WellFormed;
    InvIsWellFormed(w);
    match op {
      case HandOver(k) => HandOverKeepsInv(w, k);
      case Confirm(k) => ConfirmKeepsInv(w, k);
      case DoComplete(k, taskOpens) => CompleteKeepsInv(w, k, taskOpens);
      case Tick(clock) => TickIsStep(w, clock); TickKeepsInv(w, clock);
      case _ => QuietStepKeepsInv(w, op);
    }
  }

  lemma TickIsStep(w: World, clock: int)
    requires WellFormed(w.book) && w.clock <= clock
    ensures Step(w, Tick(clock)) == World(w.book, clock)
  {
  }

  lemma QuietStepKeepsInv(w: World, op: Op)
    requires Inv(w) && Enabled(w, op) && KeepsSpacing(w, op) && Undisturbed(w, op)
    requires !Loud(op) && !op.Tick?
    ensures Inv(Step(w, op))
  {
    hide Apart, Rows, BookStep, LastSentOk, Spaced, Enabled, KeepsSpacing, Undisturbed, WellFormed, QuietRows,
         QuietPlans;
    StaysWellFormed(w, op);
    DueDatesStaySpaced(w, op);
    PlansAreQuiet(w, op);
    RowsAreQuietAfter(w, op);
    QuietKeepsInv(w, BookStep(w, op));
  }

  // ---------- the conditions are exact ----------

  predicate EditsPlans(op: Op) {
    op.DoSaveTopic? || op.DoApprove? || op.DoSavePlan? || op.DoSetState? || op.DoSnooze? || op.DoInteraction?
    || op.DoComplete?
  }

  lemma OtherOpsKeepDueDates(w: World, op: Op)
    requires WellFormed(w.book) && Enabled(w, op) && !EditsPlans(op)
    ensures Undisturbed(w, op)
  {
    hide BookStep, Open;
    RowOpsKeepPlans(w, op);
  }

  /** A message that was handed over survives every edit of its plan. */
  lemma EditsLeaveOpen(w: World, op: Op, k: Key)
    requires Inv(w) && Enabled(w, op) && EditsPlans(op) && k in w.book.attempts && Open(w.book.attempts[k])
    requires !(op.DoComplete? && op.k == k)
    ensures k in BookStep(w, op).attempts && Open(BookStep(w, op).attempts[k])
  {
    hide Apart, Spaced, LastSentOk, OpenOk, SentBy, NextDueForApproval, DueAfterInteraction, DueAfterSend;
    assert RowOk(w.book.attempts[k], w.clock);
    CancelledStaysOpen(w.book.attempts[k], w.clock);
    hide RowOk, Cancelled, Open;
  }

  lemma CancelledStaysOpen(a: Attempt, clock: int)
    requires RowOk(a, clock) && Open(a)
    ensures Open(Cancelled(a))
  {
  }

  /** What `Inv` says of one open message. */
  lemma OpenHoldsDue(w: World, k: Key)
    requires Inv(w) && k in w.book.attempts && Open(w.book.attempts[k])
    ensures w.book.plans[k.plan].nextDue == Some(k.due)
  {
    hide RowOk, SentBy, Apart, Spaced, LastSentOk;
    assert OpenOk(k, w.book.attempts[k], w.book.plans[k.plan]);
  }

  lemma InvIsWellFormed(w: World)
    requires Inv(w)
    ensures WellFormed(w.book)
    ensures forall k :: k in w.book.attempts ==> k.plan < |w.book.plans|
  {
    hide Rows, Apart, Spaced, LastSentOk;
  }

  lemma InvMeansUndisturbed(w: World, op: Op)
    requires Inv(w) && Enabled(w, op) && Inv(Step(w, op))
    ensures Undisturbed(w, op)
  {
    hide Inv, BookStep, Open, Enabled, WellFormed;
    InvIsWellFormed(w);
    if EditsPlans(op) {
      InvIsWellFormed(Step(w, op));
      forall k | k in w.book.attempts && Open(w.book.attempts[k]) && !(op.DoComplete? && op.k == k)
        ensures k.plan < |BookStep(w, op).plans|
                && BookStep(w, op).plans[k.plan].nextDue == w.book.plans[k.plan].nextDue
      {
        EditsLeaveOpen(w, op, k);
        OpenHoldsDue(w, k);
        OpenHoldsDue(Step(w, op), k);
      }
    } else {
      OtherOpsKeepDueDates(w, op);
    }
  }

  lemma InvMeansTrulySpaced(w: World)
    requires Inv(w)
    ensures TrulySpaced(w.book)
  {
    hide RowOk, OpenOk, SentBy, Apart, LastSentOk, Spaced;
  }

  /** Exactly the two conditions: a step keeps what the spacing of sends rests on if and only if it keeps the due dates
      spaced and moves none under an open hand-off. */
  lemma StepKeepsInvExactly(w: World, op: Op)
    requires Inv(w) && Enabled(w, op)
    ensures Inv(Step(w, op)) <==> KeepsSpacing(w, op) && Undisturbed(w, op)
  {
    hide Inv, BookStep, Enabled, KeepsSpacing, Undisturbed, TrulySpaced, WellFormed;
    InvIsWellFormed(w);
    if Inv(Step(w, op)) {
      InvMeansUndisturbed(w, op);
      InvMeansTrulySpaced(Step(w, op));
      SpacingIsKeptExactly(w, op);
    } else if KeepsSpacing(w, op) && Undisturbed(w, op) {
      StepKeepsInv(w, op);
    }
  }

  // ---------- whole runs ----------

  /** A run in which every step is enabled, keeps the spacing, and disturbs no open hand-off. */
  ghost predicate Runs(w: World, ops: seq<Op>)
    requires WellFormed(w.book)
    decreases |ops|
  {
    ops == [] ||
    (&& Enabled(w, ops[0]) && KeepsSpacing(w, ops[0]) && Undisturbed(w, ops[0])
     && WellFormed(BookStep(w, ops[0])) && Runs(Step(w, ops[0]), ops[1..]))
  }

  ghost function Final(w: World, ops: seq<Op>): World
    requires WellFormed(w.book) && Runs(w, ops)
    decreases |ops|
  {
    if ops == [] then w else Final(Step(w, ops[0]), ops[1..])
  }

  lemma {:induction false} RunKeepsInv(w: World, ops: seq<Op>)
    requires WellFormed(w.book) && Inv(w) && Runs(w, ops)
    ensures Inv(Final(w, ops))
    decreases |ops|
  {
    hide Inv, Step, BookStep, Enabled, KeepsSpacing, Undisturbed;
    if ops != [] {
      StepKeepsInv(w, ops[0]);
      InvIsWellFormed(Step(w, ops[0]));
      RunKeepsInv(Step(w, ops[0]), ops[1..]);
    }
  }

  /** In every undisturbed run, two sends of one plan are at least seven days apart: the later one is not even
      handed over before. */
  lemma FollowUpsAreAWeekApart(clock: int, ops: seq<Op>, j: Key, k: Key)
    requires Runs(World(Book([], [], map[]), clock), ops)
    requires var end := Final(World(Book([], [], map[]), clock), ops).book.attempts;
             j in end && k in end && TwoSends(end, j, k)
    ensures var end := Final(World(Book([], [], map[]), clock), ops).book.attempts;
            && WeekApart(end[j], end[k])
            && (end[j].outbound.value.sentAt.value - end[k].outbound.value.sentAt.value >= 7 * DAY
                || end[k].outbound.value.sentAt.value - end[j].outbound.value.sentAt.value >= 7 * DAY)
  {
    var start := World(Book([], [], map[]), clock);
    RunKeepsInv(start, ops);
    var end := Final(start, ops);
    assert RowOk(end.book.attempts[j], end.clock) && RowOk(end.book.attempts[k], end.clock);
  }
}
