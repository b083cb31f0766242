/**
 What each follow-up transaction leaves in the rows of plans and attempts, and over whole runs: no step lowers the last
 interaction of a plan, and no later approval is due before it plus the cadence.
 */
module FollowUpRows {
  import opened Common
  import opened Scheduled
  import F = FollowUpSpacing

  const A_DAY := 86_400_000_000

  // ---------- due dates ----------

  /** The dates that an approval knows: the topic's, a cadence after the last interaction and the last send, and the
      end of a snooze. */
  function Known(plan: Plan, topic: Topic): set<int> {
    (if topic.nextDue.Some? then {topic.nextDue.value} else {})
    + (if plan.lastInteraction.Some? then {plan.lastInteraction.value + topic.cadence * A_DAY} else {})
    + (if plan.lastSent.Some? then {plan.lastSent.value + topic.cadence * A_DAY} else {})
    + (if plan.snoozedUntil.Some? then {plan.snoozedUntil.value} else {})
  }

  predicate IsLatest(due: int, dates: set<int>) {
    due in dates && forall d :: d in dates ==> d <= due
  }

  /** An approval is due at the latest known date, and a cadence from now when none is known. */
  lemma DueForApprovalExactly(plan: Plan, topic: Topic, now: int)
    ensures var due := NextDueForApproval(plan, topic, now);
            if Known(plan, topic) == {} then due == now + topic.cadence * A_DAY else IsLatest(due, Known(plan, topic))
  {
    var candidates := Listed(topic.nextDue, 0) + Listed(plan.lastInteraction, topic.cadence)
                      + Listed(plan.lastSent, topic.cadence) + Listed(plan.snoozedUntil, 0);
    assert DAY == A_DAY;
    forall d ensures d in candidates <==> d in Known(plan, topic) {
      ListedExactly(topic.nextDue, 0, d);
      ListedExactly(plan.lastInteraction, topic.cadence, d);
      ListedExactly(plan.lastSent, topic.cadence, d);
      ListedExactly(plan.snoozedUntil, 0, d);
    }
    hide Listed, MaxOf;
    if candidates != [] { assert candidates[0] in candidates; }
    if Known(plan, topic) != {} { var d :| d in Known(plan, topic); assert d in candidates; }
  }

  lemma ListedExactly(x: Option<int>, days: int, d: int)
    ensures d in Listed(x, days) <==> x.Some? && d == x.value + days * A_DAY
  {
  }

  /** After an interaction: the latest of the interaction plus a cadence, the due date and the snooze. */
  lemma DueAfterInteractionExactly(plan: Plan, cadence: int, at: int)
    ensures IsLatest(DueAfterInteraction(plan, cadence, at),
                     {at + cadence * A_DAY}
                     + (if plan.nextDue.Some? then {plan.nextDue.value} else {})
                     + (if plan.snoozedUntil.Some? then {plan.snoozedUntil.value} else {}))
  {
    assert DAY == A_DAY;
  }

  /** After a send: a cadence later, or the topic's own date when that is later. */
  lemma DueAfterSendExactly(topic: Topic, sentAt: int)
    ensures IsLatest(DueAfterSend(topic, sentAt),
                     {sentAt + topic.cadence * A_DAY, if topic.nextDue.Some? then topic.nextDue.value else sentAt})
  {
    assert DAY == A_DAY;
  }

  // ---------- withdrawing ----------

  predicate Withdrawable(a: Attempt) {
    || a.state == Due || a.state == DraftReview || a.state == Authorized || a.state == HumanRequired
    || a.state == Ineligible
  }

  /** A withdrawn attempt; its message goes with it unless it has left. */
  function Withdrawn(a: Attempt): Attempt {
    var o := a.outbound;
    Attempt(AttemptCancelled,
            if o.Some? && (o.value.state == ReviewReady || o.value.state == Queued)
            then Some(Outbound(OutCancelled, o.value.handedAt, o.value.sentAt)) else o,
            a.recorded)
  }

  lemma WithdrawsExactly(attempts: map<Key, Attempt>, plan: nat, before: Option<int>)
    ensures var after := CancelOpen(attempts, plan, before);
            && after.Keys == attempts.Keys
            && forall k :: k in attempts ==>
                 after[k] == if k.plan == plan && Withdrawable(attempts[k]) && (before.Some? ==> k.due < before.value)
                             then Withdrawn(attempts[k]) else attempts[k]
  {
  }

  /** The attempts of the plan that have not ended are withdrawn, the others stay. */
  ghost predicate AllWithdrawn(before: map<Key, Attempt>, after: map<Key, Attempt>, plan: nat) {
    && after.Keys == before.Keys
    && forall k :: k in before ==>
         after[k] == if k.plan == plan && Withdrawable(before[k]) then Withdrawn(before[k]) else before[k]
  }

  // ---------- an interaction ----------

  /** Every plan of the contact ends with a last interaction that is at least the new one and at least the old one, and
      is one of the two; its due date moves, its state, snooze and last send stay. Plans of others stay altogether. */
  lemma InteractionExactly(b: Book, contact: nat, at: int)
    requires WellFormed(b)
    ensures var after := Interaction(b, contact, at);
            && after.topics == b.topics && |after.plans| == |b.plans|
            && forall p :: 0 <= p < |b.plans| ==>
                 var plan, plan' := b.plans[p], after.plans[p];
                 && (plan.contact != contact ==> plan' == plan)
                 && (plan.contact == contact ==>
                       && plan'.lastInteraction.Some? && plan'.lastInteraction.value >= at
                       && (plan.lastInteraction.Some? ==> plan'.lastInteraction.value >= plan.lastInteraction.value)
                       && plan'.lastInteraction in {Some(at), plan.lastInteraction}
                       && plan'.nextDue == Some(DueAfterInteraction(plan, b.topics[plan.topic].cadence, at))
                       && plan'.contact == plan.contact && plan'.topic == plan.topic && plan'.state == plan.state
                       && plan'.snoozedUntil == plan.snoozedUntil && plan'.lastSent == plan.lastSent)
  {
    hide DueAfterInteraction;
  }

  /** And exactly the attempts of those plans that are due before the new date are withdrawn. */
  lemma InteractionWithdraws(b: Book, contact: nat, at: int)
    requires WellFormed(b)
    ensures var after := Interaction(b, contact, at);
            && after.attempts.Keys == b.attempts.Keys
            && forall k :: k in b.attempts ==>
                 var plan := b.plans[k.plan];
                 after.attempts[k]
                 == if plan.contact == contact && Withdrawable(b.attempts[k])
                       && k.due < DueAfterInteraction(plan, b.topics[plan.topic].cadence, at)
                    then Withdrawn(b.attempts[k]) else b.attempts[k]
  {
    hide DueAfterInteraction;
  }

  // ---------- topics ----------

  /** The active plans of the topic move, to the new due date or to none when the topic is inactive, and lose their open
      attempts; everything else stays. */
  lemma ReschedulesExactly(b: Book, t: nat, now: int)
    requires t < |b.topics|
    ensures var after := RescheduleTopic(b, t, now);
            && after.topics == b.topics && |after.plans| == |b.plans| && after.attempts.Keys == b.attempts.Keys
            && (forall p :: 0 <= p < |b.plans| ==>
                  var plan := b.plans[p];
                  after.plans[p]
                  == if plan.topic == t && plan.state == Active then
                       Plan(plan.contact, plan.topic, plan.state,
                            if b.topics[t].active then Some(NextDueForApproval(plan, b.topics[t], now)) else None,
                            plan.snoozedUntil, plan.lastInteraction, plan.lastSent)
                     else plan)
            && forall k :: k in b.attempts ==>
                 after.attempts[k]
                 == if k.plan < |b.plans| && b.plans[k.plan].topic == t && b.plans[k.plan].state == Active
                       && Withdrawable(b.attempts[k])
                    then Withdrawn(b.attempts[k]) else b.attempts[k]
  {
    hide NextDueForApproval;
  }

  /** A topic needs a week at least. A saved one that changed in anything reschedules its plans, and only then. */
  lemma SavesExactly(b: Book, t: nat, topic: Topic, textChanged: bool, now: int)
    ensures SaveTopic(b, t, topic, textChanged, now)
            == if t >= |b.topics| || topic.cadence < 7 then b
               else if textChanged || topic != b.topics[t] then
                 RescheduleTopic(Book(b.topics[t := topic], b.plans, b.attempts), t, now)
               else Book(b.topics[t := topic], b.plans, b.attempts)
    ensures NewTopic(b, topic) == if topic.cadence < 7 then b else Book(b.topics + [topic], b.plans, b.attempts)
  {
    hide RescheduleTopic;
  }

  // ---------- approving ----------

  /** The first plan of the contact for the topic. */
  lemma {:induction false} FindsTheFirst(plans: seq<Plan>, contact: nat, topic: nat)
    ensures var p := FindPlan(plans, contact, topic);
            && p <= |plans|
            && (p < |plans| ==> plans[p].contact == contact && plans[p].topic == topic)
            && forall q :: 0 <= q < p ==> plans[q].contact != contact || plans[q].topic != topic
  {
    if plans != [] { FindsTheFirst(plans[1..], contact, topic); }
  }

  /** An approval is refused for a missing topic, a bad email, and, when it enables the plan, an inactive topic or a
      contact that is not eligible. */
  predicate Refused(b: Book, t: nat, enabled: bool, checks: ApprovalChecks) {
    || t >= |b.topics| || !checks.emailOk
    || (enabled && (!b.topics[t].active || !checks.eligible))
  }

  /** A first approval adds the plan. */
  lemma ApprovesANewPlan(b: Book, contact: nat, t: nat, enabled: bool, now: int, checks: ApprovalChecks)
    requires forall q :: 0 <= q < |b.plans| ==> b.plans[q].contact != contact || b.plans[q].topic != t
    ensures var added := Plan(contact, t, if enabled then Active else Disabled, None, None, None, None);
            Approve(b, contact, t, enabled, now, checks)
            == if Refused(b, t, enabled, checks) then b
               else
                 var due := if enabled then Some(NextDueForApproval(added, b.topics[t], now)) else None;
                 Book(b.topics, b.plans + [added.(nextDue := due)], b.attempts)
  {
    FindsTheFirst(b.plans, contact, t);
    hide NextDueForApproval, FindPlan;
  }

  /** A later one sets state and due date, ends a snooze, and withdraws the open attempts when anything changed. */
  lemma ApprovesAPlan(b: Book, contact: nat, t: nat, enabled: bool, now: int, checks: ApprovalChecks, p: nat)
    requires p < |b.plans| && b.plans[p].contact == contact && b.plans[p].topic == t
    requires forall q :: 0 <= q < p ==> b.plans[q].contact != contact || b.plans[q].topic != t
    requires !Refused(b, t, enabled, checks)
    ensures var plan := b.plans[p];
            var state := if enabled then Active else Disabled;
            var due := if enabled then Some(NextDueForApproval(plan, b.topics[t], now)) else None;
            var changed := checks.emailChanged || due != plan.nextDue || state != plan.state || plan.snoozedUntil.Some?;
            var after := Approve(b, contact, t, enabled, now, checks);
            && after.topics == b.topics
            && after.plans == b.plans[p := Plan(contact, t, state, due, None, plan.lastInteraction, plan.lastSent)]
            && (if changed then AllWithdrawn(b.attempts, after.attempts, p) else after.attempts == b.attempts)
  {
    FindsTheFirst(b.plans, contact, t);
    WithdrawsExactly(b.attempts, p, None);
    hide NextDueForApproval, FindPlan, CancelOpen;
  }

  lemma RefusedApprovalStays(b: Book, contact: nat, t: nat, enabled: bool, now: int, checks: ApprovalChecks)
    requires Refused(b, t, enabled, checks)
    ensures Approve(b, contact, t, enabled, now, checks) == b
  {
  }

  /** Saving a plan rewrites its topic, which becomes active, and approves the contact for it. */
  lemma SavesAPlan(b: Book, p: nat, cadence: int, automatic: bool, nextDue: Option<int>, enabled: bool, now: int,
                   checks: ApprovalChecks)
    requires WellFormed(b)
    ensures SavePlan(b, p, cadence, automatic, nextDue, enabled, now, checks)
            == if p >= |b.plans| || cadence < 7 || !checks.emailOk || (enabled && !checks.eligible) then b
               else
                 var t := b.plans[p].topic;
                 Approve(Book(b.topics[t := Topic(cadence, nextDue, true, automatic)], b.plans, b.attempts),
                         b.plans[p].contact, t, enabled, now, checks)
  {
    hide Approve;
  }

  // ---------- states and snoozes ----------

  predicate Asleep(plan: Plan, now: int) {
    plan.snoozedUntil.Some? && now < plan.snoozedUntil.value
  }

  /** A plan is activated when email and topic allow it and the contact is eligible or the plan asleep; its due date
      stays, or is found when there is none, and a snooze that is over ends. */
  lemma ActivatesExactly(b: Book, p: nat, now: int, checks: ApprovalChecks)
    requires WellFormed(b) && p < |b.plans|
    ensures var plan := b.plans[p];
            var topic := b.topics[plan.topic];
            SetState(b, p, Active, now, checks)
            == if checks.emailOk && topic.active && (Asleep(plan, now) || checks.eligible) then
                 Book(b.topics,
                      b.plans[p := Plan(plan.contact, plan.topic, Active,
                                        if plan.nextDue == None then Some(NextDueForApproval(plan, topic, now))
                                        else plan.nextDue,
                                        if Asleep(plan, now) then plan.snoozedUntil else None,
                                        plan.lastInteraction, plan.lastSent)],
                      b.attempts)
               else b
  {
    hide NextDueForApproval;
  }

  /** A plan that is paused or disabled loses its open attempts, and when it is disabled its due date. */
  lemma StopsExactly(b: Book, p: nat, state: PlanState, now: int, checks: ApprovalChecks)
    requires WellFormed(b) && p < |b.plans| && state != Active
    ensures var plan, after := b.plans[p], SetState(b, p, state, now, checks);
            && after.topics == b.topics
            && after.plans == b.plans[p := Plan(plan.contact, plan.topic, state,
                                                if state == Disabled then None else plan.nextDue,
                                                plan.snoozedUntil, plan.lastInteraction, plan.lastSent)]
            && AllWithdrawn(b.attempts, after.attempts, p)
  {
    WithdrawsExactly(b.attempts, p, None);
    hide CancelOpen;
  }

  /** A snooze into the future sets both dates and withdraws the open attempts; one into the past is refused. */
  lemma SnoozesExactly(b: Book, p: nat, until: int, now: int)
    ensures p >= |b.plans| || until <= now ==> Snooze(b, p, until, now) == b
    ensures p < |b.plans| && until > now ==>
              var plan, after := b.plans[p], Snooze(b, p, until, now);
              && after.topics == b.topics
              && after.plans == b.plans[p := Plan(plan.contact, plan.topic, plan.state, Some(until), Some(until),
                                                  plan.lastInteraction, plan.lastSent)]
              && AllWithdrawn(b.attempts, after.attempts, p)
  {
    if p < |b.plans| { WithdrawsExactly(b.attempts, p, None); }
    hide CancelOpen;
  }

  lemma MissingPlansStay(b: Book, p: nat, state: PlanState, now: int, checks: ApprovalChecks)
    requires p >= |b.plans|
    ensures SetState(b, p, state, now, checks) == b && CreateAttempt(b, p, now) == b
  {
  }

  // ---------- attempts ----------

  /** A plan is due when it and its topic are active, its date has come and it is not asleep; then its attempt for that
      date is there, a new one if there was none. */
  lemma CreatesExactly(b: Book, p: nat, now: int)
    requires WellFormed(b) && p < |b.plans|
    ensures var plan := b.plans[p];
            CreateAttempt(b, p, now)
            == if plan.state == Active && b.topics[plan.topic].active && plan.nextDue.Some? && plan.nextDue.value <= now
                  && !Asleep(plan, now) && Key(p, plan.nextDue.value) !in b.attempts
               then Book(b.topics, b.plans, b.attempts[Key(p, plan.nextDue.value) := Attempt(Due, None, None)])
               else b
  {
  }

  /** The delivery of a follow-up writes the message of its attempt and nothing else. */
  lemma SetsAMessage(b: Book, k: Key, o: Outbound)
    requires k in b.attempts
    ensures SetOut(b, k, o)
            == Book(b.topics, b.plans, b.attempts[k := Attempt(b.attempts[k].state, Some(o), b.attempts[k].recorded)])
  {
  }

  /** A draft is written only for an attempt without message: withdrawn when the date has changed, ineligible when plan
      or topic is inactive or the plan asleep, queued under an automatic topic, and else up for review. */
  lemma DraftsExactly(b: Book, k: Key, now: int)
    requires WellFormed(b)
    ensures k !in b.attempts || b.attempts[k].outbound.Some? ==> Draft(b, k, now) == b
    ensures k in b.attempts && b.attempts[k].outbound == None ==>
              var plan := b.plans[k.plan];
              var topic := b.topics[plan.topic];
              var row := if plan.nextDue != Some(k.due) then Attempt(AttemptCancelled, None, b.attempts[k].recorded)
                         else if plan.state != Active || !topic.active || Asleep(plan, now) then
                           Attempt(Ineligible, None, b.attempts[k].recorded)
                         else if topic.automatic then
                           Attempt(Authorized, Some(Outbound(Queued, None, None)), b.attempts[k].recorded)
                         else Attempt(DraftReview, Some(Outbound(ReviewReady, None, None)), b.attempts[k].recorded);
              Draft(b, k, now) == Book(b.topics, b.plans, b.attempts[k := row])
  {
  }

  /** A person releases a draft that is up for review, and nothing else. */
  lemma AuthorizesExactly(b: Book, k: Key)
    ensures AuthorizeDraft(b, k)
            == if k in b.attempts && b.attempts[k].state == DraftReview && b.attempts[k].outbound.Some?
                  && b.attempts[k].outbound.value.state == ReviewReady
               then
                 var o := b.attempts[k].outbound.value;
                 Book(b.topics, b.plans,
                      b.attempts[k := Attempt(Authorized, Some(Outbound(Queued, o.handedAt, o.sentAt)),
                                              b.attempts[k].recorded)])
               else b
  {
  }

  /** What the delivery gate asks of the plan: an authorised attempt with a queued message, for the due date of an
      active plan and topic that is not asleep. */
  lemma MayLeaveExactly(b: Book, k: Key, now: int)
    requires WellFormed(b)
    ensures MayLeave(b, k, now) <==>
              && k in b.attempts && b.attempts[k].state == Authorized
              && b.attempts[k].outbound.Some? && b.attempts[k].outbound.value.state == Queued
              && b.plans[k.plan].state == Active && b.plans[k.plan].nextDue == Some(k.due)
              && b.topics[b.plans[k.plan].topic].active && !Asleep(b.plans[k.plan], now)
  {
  }

  /** A sent message is recorded on attempt and plan, at its own time or now, and ends a snooze; one that ended
      otherwise calls a person, if that can be done; anything else stays. */
  lemma CompletesExactly(b: Book, k: Key, now: int, taskOpens: bool)
    requires WellFormed(b)
    ensures k !in b.attempts || b.attempts[k].outbound == None ==> Complete(b, k, now, taskOpens) == b
    ensures k in b.attempts && b.attempts[k].outbound.Some? ==>
              var a, o := b.attempts[k], b.attempts[k].outbound.value;
              var plan := b.plans[k.plan];
              var at := if o.sentAt.Some? then o.sentAt.value else now;
              Complete(b, k, now, taskOpens)
              == if o.state == Sent then
                   Book(b.topics,
                        b.plans[k.plan := Plan(plan.contact, plan.topic, plan.state,
                                               Some(DueAfterSend(b.topics[plan.topic], at)), None, plan.lastInteraction,
                                               Some(at))],
                        b.attempts[k := Attempt(AttemptSent, a.outbound, Some(at))])
                 else if o.state in {SendFailed, Blocked, OutCancelled} && taskOpens then
                   Book(b.topics, b.plans, b.attempts[k := Attempt(HumanRequired, a.outbound, a.recorded)])
                 else b
  {
    hide DueAfterSend;
  }

  // ---------- laws over runs ----------

  /** No plan is lost, moves to another contact or topic, or forgets an interaction. */
  ghost predicate Remembers(b: Book, b': Book) {
    && |b.plans| <= |b'.plans|
    && forall p :: 0 <= p < |b.plans| ==>
         && b'.plans[p].contact == b.plans[p].contact && b'.plans[p].topic == b.plans[p].topic
         && (b.plans[p].lastInteraction.Some? ==>
               b'.plans[p].lastInteraction.Some?
               && b'.plans[p].lastInteraction.value >= b.plans[p].lastInteraction.value)
  }

  lemma StepRemembers(w: F.World, op: F.Op)
    requires WellFormed(w.book) && F.Enabled(w, op)
    ensures Remembers(w.book, F.BookStep(w, op))
  {
    match op
    case DoInteraction(contact, at) => InteractionRemembers(w.book, contact, at);
    case DoApprove(contact, t, enabled, checks) => ApproveRemembers(w.book, contact, t, enabled, w.clock, checks);
    case DoSavePlan(p, cadence, automatic, nextDue, enabled, checks) =>
      if p < |w.book.plans| {
        var t := w.book.plans[p].topic;
        ApproveRemembers(w.book.(topics := w.book.topics[t := Topic(cadence, nextDue, true, automatic)]),
                         w.book.plans[p].contact, t, enabled, w.clock, checks);
      }
    case _ => OthersRemember(w, op);
    hide Interaction, Approve, F.Enabled, MayLeave;
  }

  lemma OthersRemember(w: F.World, op: F.Op)
    requires WellFormed(w.book) && F.Enabled(w, op) && !op.DoInteraction? && !op.DoApprove? && !op.DoSavePlan?
    ensures Remembers(w.book, F.BookStep(w, op))
  {
    hide NextDueForApproval, DueAfterSend, CancelOpen, MayLeave;
  }

  lemma InteractionRemembers(b: Book, contact: nat, at: int)
    requires WellFormed(b)
    ensures Remembers(b, Interaction(b, contact, at))
  {
    InteractionExactly(b, contact, at);
    hide Interaction;
  }

  lemma ApproveRemembers(b: Book, contact: nat, t: nat, enabled: bool, now: int, checks: ApprovalChecks)
    ensures Remembers(b, Approve(b, contact, t, enabled, now, checks))
  {
    hide NextDueForApproval, CancelOpen;
  }

  /** Any run of enabled steps, whether they keep the spacing of sends or not. */
  ghost predicate AnyRun(w: F.World, ops: seq<F.Op>)
    requires WellFormed(w.book)
    decreases |ops|
  {
    ops == [] ||
    (F.Enabled(w, ops[0]) && WellFormed(F.BookStep(w, ops[0])) && AnyRun(F.Step(w, ops[0]), ops[1..]))
  }

  ghost function End(w: F.World, ops: seq<F.Op>): F.World
    requires WellFormed(w.book) && AnyRun(w, ops)
    decreases |ops|
  {
    if ops == [] then w else End(F.Step(w, ops[0]), ops[1..])
  }

  lemma RemembersOn(a: Book, b: Book, c: Book)
    requires Remembers(a, b) && Remembers(b, c)
    ensures Remembers(a, c)
  {
  }

  lemma {:induction false} RunRemembers(w: F.World, ops: seq<F.Op>)
    requires WellFormed(w.book) && AnyRun(w, ops)
    ensures Remembers(w.book, End(w, ops).book) && WellFormed(End(w, ops).book)
    decreases |ops|
  {
    hide F.Enabled, F.BookStep, WellFormed, Remembers;
    if ops != [] {
      StepRemembers(w, ops[0]);
      RunRemembers(F.Step(w, ops[0]), ops[1..]);
      RemembersOn(w.book, F.Step(w, ops[0]).book, End(w, ops).book);
    } else {
      assert Remembers(w.book, w.book) by { RemembersItself(w.book); }
    }
  }

  lemma RemembersItself(b: Book)
    ensures Remembers(b, b)
  {
  }

  /** After an interaction and any run that follows it, an approval of a plan of that contact is not due before the
      interaction plus the cadence of its topic then. */
  lemma LaterApprovalsWait(w: F.World, contact: nat, at: int, ops: seq<F.Op>, p: nat, now: int)
    requires WellFormed(w.book) && p < |w.book.plans| && w.book.plans[p].contact == contact
    requires var after := F.World(Interaction(w.book, contact, at), w.clock);
             WellFormed(after.book) && AnyRun(after, ops)
    ensures var end := End(F.World(Interaction(w.book, contact, at), w.clock), ops).book;
            && p < |end.plans| && end.plans[p].topic < |end.topics|
            && NextDueForApproval(end.plans[p], end.topics[end.plans[p].topic], now)
               >= at + end.topics[end.plans[p].topic].cadence * A_DAY
  {
    InteractionExactly(w.book, contact, at);
    RunRemembers(F.World(Interaction(w.book, contact, at), w.clock), ops);
    assert DAY == A_DAY;
    hide AnyRun, End, Interaction, NextDueForApproval;
  }

  // ---------- the world of the follow-ups ----------

  /** Any service may be called at any time, and a mark may land on an attempt in any state; a message is blocked while
      queued, handed over when the gate lets it, and answered while it is in the air; time goes on. */
  lemma MayHappen(w: F.World, op: F.Op)
    requires WellFormed(w.book)
    ensures op.DoNewTopic? || op.DoSaveTopic? || op.DoApprove? || op.DoSavePlan? || op.DoSetState? || op.DoSnooze?
            || op.DoInteraction? || op.DoCreateAttempt? || op.DoDraft? || op.DoAuthorize? || op.DoComplete? ==>
              F.Enabled(w, op)
    ensures op.DoMark? ==>
              (F.Enabled(w, op) <==>
                 && op.k in w.book.attempts
                 && (op.mark == HumanRequired || op.mark == AttemptCancelled || op.mark == Ineligible))
    ensures op.DoBlock? ==> (F.Enabled(w, op) <==> In(w.book, op.k, Queued))
    ensures op.HandOver? ==> (F.Enabled(w, op) <==> MayLeave(w.book, op.k, w.clock))
    ensures op.Doubt? || op.Fail? || op.Confirm? ==>
              (F.Enabled(w, op) <==> In(w.book, op.k, Sending) || In(w.book, op.k, Reconciling))
    ensures op.Tick? ==> (F.Enabled(w, op) <==> w.clock <= op.clock)
  {
  }

  predicate In(b: Book, k: Key, state: OutState) {
    k in b.attempts && b.attempts[k].outbound.Some? && b.attempts[k].outbound.value.state == state
  }

  /** A delivery step writes one message: its state, when it was handed over, and when it was sent. */
  lemma DeliversExactly(w: F.World, op: F.Op)
    requires WellFormed(w.book) && F.Enabled(w, op)
    requires op.DoBlock? || op.HandOver? || op.Doubt? || op.Fail? || op.Confirm?
    ensures var a := w.book.attempts[op.k];
            var was := a.outbound.value;
            var message :=
              if op.DoBlock? then Outbound(Blocked, was.handedAt, was.sentAt)
              else if op.HandOver? then Outbound(Sending, Some(w.clock), None)
              else if op.Doubt? then Outbound(Reconciling, was.handedAt, was.sentAt)
              else if op.Fail? then Outbound(SendFailed, was.handedAt, was.sentAt)
              else Outbound(Sent, was.handedAt, Some(w.clock));
            F.Step(w, op)
            == F.World(Book(w.book.topics, w.book.plans,
                            w.book.attempts[op.k := Attempt(a.state, Some(message), a.recorded)]), w.clock)
  {
  }

  /** A service acts at the time of the clock, and only time moves the clock. */
  lemma ServesExactly(w: F.World, op: F.Op)
    requires WellFormed(w.book) && F.Enabled(w, op)
    ensures F.Step(w, op).clock == if op.Tick? then op.clock else w.clock
    ensures var b, now := w.book, w.clock;
            match op
            case DoNewTopic(topic) => F.Step(w, op).book == NewTopic(b, topic)
            case DoSaveTopic(t, topic, changed) => F.Step(w, op).book == SaveTopic(b, t, topic, changed, now)
            case DoApprove(c, t, enabled, checks) => F.Step(w, op).book == Approve(b, c, t, enabled, now, checks)
            case DoSavePlan(p, cadence, automatic, nextDue, enabled, checks) =>
              F.Step(w, op).book == SavePlan(b, p, cadence, automatic, nextDue, enabled, now, checks)
            case DoSetState(p, state, checks) => F.Step(w, op).book == SetState(b, p, state, now, checks)
            case DoSnooze(p, until) => F.Step(w, op).book == Snooze(b, p, until, now)
            case DoInteraction(c, at) => F.Step(w, op).book == Interaction(b, c, at)
            case DoCreateAttempt(p) => F.Step(w, op).book == CreateAttempt(b, p, now)
            case DoMark(k, mark) => F.Step(w, op).book == b.(attempts := b.attempts[k := b.attempts[k].(state := mark)])
            case DoDraft(k) => F.Step(w, op).book == Draft(b, k, now)
            case DoAuthorize(k) => F.Step(w, op).book == AuthorizeDraft(b, k)
            case DoComplete(k, opens) => F.Step(w, op).book == Complete(b, k, now, opens)
            case Tick(_) => F.Step(w, op).book == b
            case _ => true
  {
    hide SaveTopic, Approve, SavePlan, SetState, Snooze, Interaction, CreateAttempt, Draft, AuthorizeDraft, Complete;
  }
}
