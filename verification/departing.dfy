/**
 Which message leaves the queue, and what becomes of one that does not, read off the tables.
 */
module Departing {
  import opened Common
  import opened Delivery
  import opened DeliveryAnswers
  import opened Authorizing
  import T = HumanTasks
  import R = TaskRequests
  import C = Capacity
  import A = Admission

  // ---------- an automatic message ----------

  /** The decision holds a reservation of the size its action needs. */
  predicate HoldsSlots(db: Db, inbound: nat) {
    inbound in db.decisions &&
    exists k :: 0 <= k < |db.reservations| && db.reservations[k].source.ForDecision?
                && db.reservations[k].source.inbound == inbound
                && db.reservations[k].slots == Slots(db.decisions[inbound])
  }

  /** A reply answers, a proposal and its acknowledgement redirect. */
  predicate Fitting(action: Action, kind: Kind) {
    if kind == AutomaticReply then action == Reply else action == RedirectProposal
  }

  predicate ProposalStamped(db: Db, inbound: nat) {
    ProposalOut(db, inbound) && db.messages[Auto(ReferredProposal, inbound)].sentAt.Some?
  }

  predicate IsQueued(db: Db, key: Key) {
    key in db.messages && db.messages[key].state == Queued
  }

  /** The message is queued, none of the five verdicts objects, its decision is live with the matching action, its
      contact has no open task, its reservation has the right slots, the proposal of an acknowledgement is sent, and
      both counts leave room. */
  predicate AutomaticMayLeave(db: Db, kind: Kind, inbound: nat, now: int, checks: SendChecks) {
    && IsQueued(db, Auto(kind, inbound))
    && !checks.manualReply && checks.policy && checks.integrity && checks.gmailReady && checks.built
    && inbound in db.decisions && db.decisions[inbound].mode == Live
    && Fitting(db.decisions[inbound].action, kind)
    && NobodyAsked(db, db.decisions[inbound])
    && HoldsSlots(db, inbound)
    && (kind == RedirectAck ==> ProposalStamped(db, inbound))
    && HasRoom(db, Auto(kind, inbound), db.decisions[inbound].workspace, Some(db.decisions[inbound].conversation), now)
  }

  /** An automatic message gets an effect if and only if all of that holds. */
  lemma AutomaticLeavesExactly(db: Db, kind: Kind, inbound: nat, now: int, checks: SendChecks)
    requires T.Consistent(db.tasks) && A.Unique(db.reservations)
    ensures Prepare(db, Auto(kind, inbound), now, checks).Effect? <==> AutomaticMayLeave(db, kind, inbound, now, checks)
  {
    if IsQueued(db, Auto(kind, inbound)) && inbound in db.decisions {
      AutomaticAnswers(db, kind, inbound, now, checks);
      var o := SendObjections(db, kind, inbound, now, checks);
      FourObjections(o[0], o[1], o[2], o[3]);
    }
    hide T.Consistent, A.Unique, NobodyAsked, HoldsSlots, HasRoom, AutomaticClear, RateClear, Reject, ProposalStamped,
         First;
  }

  /** The checks that the source makes in one go. */
  predicate Rechecked(db: Db, kind: Kind, inbound: nat, checks: SendChecks)
    requires inbound in db.decisions
  {
    var d := db.decisions[inbound];
    && NobodyAsked(db, d) && !checks.manualReply && LiveWith(d, {Reply, RedirectProposal}, checks.policy)
    && HoldsSlots(db, inbound) && Fitting(d.action, kind)
    && (kind == RedirectAck ==> ProposalStamped(db, inbound)) && checks.integrity
  }

  function SendObjections(db: Db, kind: Kind, inbound: nat, now: int, checks: SendChecks): seq<(bool, string)>
    requires inbound in db.decisions
  {
    var d := db.decisions[inbound];
    [(!Rechecked(db, kind, inbound, checks), "FINAL_SEND_RECHECK_FAILED"),
     (!checks.gmailReady, "GMAIL_NOT_READY"),
     (!checks.built, "MIME_OR_ATTACHMENT_FAILURE"),
     (!HasRoom(db, Auto(kind, inbound), d.workspace, Some(d.conversation), now), "FINAL_AUTOMATIC_RATE_LIMIT")]
  }

  /** The row that leaves. */
  function Leaving(m: Message, now: int): Message {
    Message(Sending, m.attempts + 1, Some(now), None, m.sentAt, m.approved)
  }

  /** What a queued automatic message of a known decision gets. */
  function SendAnswer(db: Db, kind: Kind, inbound: nat, now: int, checks: SendChecks): PrepareResult
    requires inbound in db.decisions && Auto(kind, inbound) in db.messages
  {
    var key, d := Auto(kind, inbound), db.decisions[inbound];
    var objection := First(SendObjections(db, kind, inbound, now, checks));
    if objection != None then
      var failed := db.messages[key := Moved(db.messages[key], SendFailed, None)];
      var after := AfterRejection(db, inbound, objection.value, HumanRequired, failed, db.reservations);
      if after.Some? then Stopped(after.value) else Raised
    else
      var executing := Decision(d.workspace, d.contact, d.conversation, d.thread, d.mode, d.action, Executing);
      Effect(Db(db.decisions[inbound := executing], db.messages[key := Leaving(db.messages[key], now)],
                db.attempts, db.automatic, db.threads, db.reservations, db.tasks, db.limits))
  }

  lemma RecheckedExactly(db: Db, kind: Kind, inbound: nat, checks: SendChecks)
    requires T.Consistent(db.tasks) && A.Unique(db.reservations) && inbound in db.decisions
    ensures AutomaticClear(db, kind, inbound, checks) <==> Rechecked(db, kind, inbound, checks)
  {
    var d := db.decisions[inbound];
    R.ReplyGateExactly(db.tasks, d.contact, d.conversation);
    A.FoundExactly(db.reservations, inbound, d.conversation, 0);
    hide T.Consistent, T.ReplyGateClear, NobodyAsked;
  }

  lemma AutomaticAnswers(db: Db, kind: Kind, inbound: nat, now: int, checks: SendChecks)
    requires T.Consistent(db.tasks) && A.Unique(db.reservations)
    requires inbound in db.decisions && IsQueued(db, Auto(kind, inbound))
    ensures Prepare(db, Auto(kind, inbound), now, checks) == SendAnswer(db, kind, inbound, now, checks)
  {
    var d := db.decisions[inbound];
    RecheckedExactly(db, kind, inbound, checks);
    RoomExactly(db, Auto(kind, inbound), d.workspace, Some(d.conversation), now);
    var o := SendObjections(db, kind, inbound, now, checks);
    FourObjections(o[0], o[1], o[2], o[3]);
    hide T.Consistent, A.Unique, T.OpenTask, AutomaticClear, Rechecked, RateClear, HasRoom, First;
  }

  // ---------- a scheduled message ----------

  /** The contact has no open task, and the attempt may leave under the mode its topic has now: with a reservation, or
      released by a person. */
  predicate ScheduledMay(db: Db, attempt: nat, checks: SendChecks) {
    && attempt in db.attempts
    && (forall t :: 0 <= t < |db.tasks.tasks| && db.tasks.tasks[t].status == T.Open ==>
          db.tasks.tasks[t].contact != db.attempts[attempt].contact)
    && checks.policy && checks.integrity
    && (if db.attempts[attempt].topic in db.automatic then A.HasAttempt(db.reservations, attempt)
        else Scheduled(attempt) in db.messages && db.messages[Scheduled(attempt)].approved)
  }

  /** The message is queued, no verdict but the manual reply's, which it does not know, objects, its contact has no open
      task, its topic's mode lets it, and under an automatic topic the day has room. */
  predicate ScheduledMayLeave(db: Db, attempt: nat, now: int, checks: SendChecks) {
    && IsQueued(db, Scheduled(attempt)) && ScheduledMay(db, attempt, checks)
    && checks.gmailReady && checks.built
    && (db.attempts[attempt].topic in db.automatic ==>
          HasRoom(db, Scheduled(attempt), db.attempts[attempt].workspace, None, now))
  }

  /** A scheduled message gets an effect if and only if all of that holds. */
  lemma ScheduledLeavesExactly(db: Db, attempt: nat, now: int, checks: SendChecks)
    requires T.Consistent(db.tasks) && A.Unique(db.reservations)
    ensures Prepare(db, Scheduled(attempt), now, checks).Effect? <==> ScheduledMayLeave(db, attempt, now, checks)
  {
    if IsQueued(db, Scheduled(attempt)) { ScheduledAnswers(db, attempt, now, checks); }
    hide ScheduledMay, HasRoom, ScheduledClear, RateClear;
  }

  /** What a queued scheduled message gets: it leaves, or its row says why not. */
  function ScheduledAnswer(db: Db, attempt: nat, now: int, checks: SendChecks): PrepareResult
    requires Scheduled(attempt) in db.messages
  {
    var key := Scheduled(attempt);
    var m := db.messages[key];
    if !ScheduledMay(db, attempt, checks) then Stopped(db.(messages := db.messages[key := Moved(m, Ineligible, None)]))
    else if !checks.gmailReady || !checks.built then
      Stopped(db.(messages := db.messages[key := Moved(m, SendFailed, None)]))
    else if db.attempts[attempt].topic in db.automatic && !HasRoom(db, key, db.attempts[attempt].workspace, None, now)
    then Stopped(db.(messages := db.messages[key := Moved(m, Ineligible, None)]))
    else Effect(db.(messages := db.messages[key := Leaving(m, now)]))
  }

  lemma ScheduledMayExactly(db: Db, attempt: nat, checks: SendChecks)
    requires T.Consistent(db.tasks) && A.Unique(db.reservations)
    ensures ScheduledClear(db, attempt, checks) <==> ScheduledMay(db, attempt, checks)
  {
    if attempt in db.attempts { R.ScheduledGateExactly(db.tasks, db.attempts[attempt].contact); }
    A.FoundExactly(db.reservations, 0, 0, attempt);
    hide T.Consistent, T.ScheduledGateClear, A.Unique, A.HasAttempt;
  }

  lemma ScheduledAnswers(db: Db, attempt: nat, now: int, checks: SendChecks)
    requires T.Consistent(db.tasks) && A.Unique(db.reservations) && IsQueued(db, Scheduled(attempt))
    ensures Prepare(db, Scheduled(attempt), now, checks) == ScheduledAnswer(db, attempt, now, checks)
  {
    ScheduledMayExactly(db, attempt, checks);
    if attempt in db.attempts { RoomExactly(db, Scheduled(attempt), db.attempts[attempt].workspace, None, now); }
    assert ScheduledClear(db, attempt, checks) ==> attempt in db.attempts;
    hide ScheduledClear, RateClear, HasRoom;
  }

  // ---------- messages that are not queued ----------

  /** No message leaves from any other state, and only a draft is touched: it fails. */
  lemma OthersStay(db: Db, key: Key, now: int, checks: SendChecks)
    requires !IsQueued(db, key)
    ensures key !in db.messages ==> Prepare(db, key, now, checks) == Raised
    ensures key in db.messages ==>
              Prepare(db, key, now, checks)
              == if db.messages[key].state in {Prepared, ReviewReady}
                 then Stopped(db.(messages := db.messages[key := db.messages[key].(state := SendFailed)]))
                 else Stopped(db)
  {
  }

  /** A queued automatic message without decision raises. */
  lemma DecisionIsNeeded(db: Db, kind: Kind, inbound: nat, now: int, checks: SendChecks)
    requires inbound !in db.decisions && IsQueued(db, Auto(kind, inbound))
    ensures Prepare(db, Auto(kind, inbound), now, checks) == Raised
  {
  }
}
