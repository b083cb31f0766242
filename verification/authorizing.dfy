/**
 What authorising lets through, what it refuses and for which reason, read off the tables.
 */
module Authorizing {
  import opened Common
  import opened Delivery
  import opened DeliveryAnswers
  import T = HumanTasks
  import R = TaskRequests
  import C = Capacity
  import A = Admission

  /** The contact of the decision has no open task, and the conversation is still the contact's. */
  predicate NobodyAsked(db: Db, d: Decision) {
    && (forall t :: 0 <= t < |db.tasks.tasks| && db.tasks.tasks[t].status == T.Open ==>
          db.tasks.tasks[t].contact != d.contact)
    && d.conversation in db.tasks.contactOf && db.tasks.contactOf[d.conversation] == d.contact
  }

  predicate LiveWith(d: Decision, actions: set<Action>, policy: bool) {
    d.mode == Live && d.action in actions && policy
  }

  function Slots(d: Decision): nat {
    if d.action == RedirectProposal then 2 else 1
  }

  /** The decision already has one of its messages. */
  predicate Written(db: Db, inbound: nat) {
    exists kind: Kind :: Auto(kind, inbound) in db.messages
  }

  /** The first message of the decision. */
  function FirstMessage(d: Decision, inbound: nat): Key {
    if d.action == RedirectProposal then Auto(ReferredProposal, inbound) else Auto(AutomaticReply, inbound)
  }

  // ---------- the reply or the proposal ----------

  /** The objections made before capacity is asked for, in their order. */
  function Objections(db: Db, inbound: nat, checks: AuthorizeChecks): seq<(bool, string)>
    requires inbound in db.decisions
  {
    var d := db.decisions[inbound];
    [(checks.manualReply, "MANUAL_REPLY_ALREADY_AUTHORIZED"),
     (!NobodyAsked(db, d), "HUMAN_TASK_OPEN"),
     (!LiveWith(d, {Reply, RedirectProposal}, checks.policy), "POLICY_RECHECK_FAILED"),
     (!checks.liveOrigin, "NOT_LIVE_ORIGIN"),
     (!checks.gmailReady, "GMAIL_NOT_READY")]
  }

  predicate Capable(db: Db, inbound: nat, now: int)
    requires inbound in db.decisions
  {
    var d := db.decisions[inbound];
    A.Admits(db.reservations, db.limits, d.workspace, inbound, d.conversation, Slots(d), now)
  }

  function Reserved(db: Db, inbound: nat, now: int): seq<C.Reservation>
    requires inbound in db.decisions
  {
    var d := db.decisions[inbound];
    A.WithDecision(db.reservations, d.workspace, inbound, d.conversation, Slots(d), now)
  }

  function AfterAuthorizing(db: Db, inbound: nat, now: int): Db
    requires inbound in db.decisions
  {
    var d := db.decisions[inbound];
    var authorized := Decision(d.workspace, d.contact, d.conversation, d.thread, d.mode, d.action, Authorized);
    Db(db.decisions[inbound := authorized],
       db.messages[FirstMessage(d, inbound) := Message(Queued, 0, None, Some(now), None, false)],
       db.attempts, db.automatic, db.threads, Reserved(db, inbound, now), db.tasks, db.limits)
  }

  /** The answer to an eligible decision without message. */
  function Answer(db: Db, inbound: nat, now: int, checks: AuthorizeChecks): Option<Db>
    requires inbound in db.decisions
  {
    var objection := First(Objections(db, inbound, checks));
    if objection != None then
      AfterRejection(db, inbound, objection.value, if checks.manualReply then HumanRequired else RejectedPolicy,
                     db.messages, db.reservations)
    else if !Capable(db, inbound, now) then
      AfterRejection(db, inbound, "AUTOMATIC_RATE_LIMIT", RejectedPolicy, db.messages, db.reservations)
    else if checks.address != "" then
      AfterRejection(db, inbound, checks.address, RejectedPolicy, db.messages, Reserved(db, inbound, now))
    else Some(AfterAuthorizing(db, inbound, now))
  }

  /** An unknown decision raises; one that is not eligible, or has a message, is left alone; any other gets exactly the
      answer above. */
  lemma AuthorizesExactly(db: Db, inbound: nat, now: int, checks: AuthorizeChecks)
    requires T.Consistent(db.tasks) && A.Unique(db.reservations)
    ensures inbound !in db.decisions ==> AuthorizeReply(db, inbound, now, checks) == None
    ensures inbound in db.decisions && (db.decisions[inbound].state != AutoEligible || Written(db, inbound)) ==>
              AuthorizeReply(db, inbound, now, checks) == Some(db)
    ensures inbound in db.decisions && db.decisions[inbound].state == AutoEligible && !Written(db, inbound) ==>
              AuthorizeReply(db, inbound, now, checks) == Answer(db, inbound, now, checks)
  {
    hide T.OpenTask, T.ReplyGateClear, C.ReserveForDecision, T.Consistent, A.Unique, A.Admits, A.WithDecision, First,
         HasAutomatic, Written;
    WrittenExactly(db, inbound);
    if inbound in db.decisions {
      var d := db.decisions[inbound];
      R.ReplyGateExactly(db.tasks, d.contact, d.conversation);
      A.DecisionExactly(db.reservations, db.limits, d.workspace, inbound, d.conversation, Slots(d), now);
      var o := Objections(db, inbound, checks);
      FiveObjections(o[0], o[1], o[2], o[3], o[4]);
    }
  }

  lemma WrittenExactly(db: Db, inbound: nat)
    ensures HasAutomatic(db, inbound) <==> Written(db, inbound)
  {
    if Written(db, inbound) {
      var kind: Kind :| Auto(kind, inbound) in db.messages;
      match kind case AutomaticReply => case ReferredProposal => case RedirectAck =>
    }
  }

  /** The decision is eligible and without message, no verdict objects, its contact has no open task, it is live with a
      reply or a proposal, and its slots are there or fit. */
  predicate GetsThrough(db: Db, inbound: nat, now: int, checks: AuthorizeChecks) {
    && inbound in db.decisions && db.decisions[inbound].state == AutoEligible && !Written(db, inbound)
    && !checks.manualReply && NobodyAsked(db, db.decisions[inbound])
    && db.decisions[inbound].mode == Live && db.decisions[inbound].action in {Reply, RedirectProposal}
    && checks.policy && checks.liveOrigin && checks.gmailReady
    && Capable(db, inbound, now) && checks.address == ""
  }

  /** A message is added if and only if all of that holds. */
  lemma LetsThroughExactly(db: Db, inbound: nat, now: int, checks: AuthorizeChecks)
    requires T.Consistent(db.tasks) && A.Unique(db.reservations)
    ensures var r := AuthorizeReply(db, inbound, now, checks);
            (r.Some? && r.value.messages != db.messages) <==> GetsThrough(db, inbound, now, checks)
  {
    hide AuthorizeReply, T.OpenTask, T.Consistent, A.Unique, NobodyAsked, First, Capable, Reserved;
    AuthorizesExactly(db, inbound, now, checks);
    if inbound in db.decisions && db.decisions[inbound].state == AutoEligible && !Written(db, inbound) {
      var o := Objections(db, inbound, checks);
      FiveObjections(o[0], o[1], o[2], o[3], o[4]);
      var key := FirstMessage(db.decisions[inbound], inbound);
      assert key !in db.messages;
      assert key in AfterAuthorizing(db, inbound, now).messages;
    }
  }

  // ---------- the acknowledgement ----------

  predicate ProposalOut(db: Db, inbound: nat) {
    Auto(ReferredProposal, inbound) in db.messages && db.messages[Auto(ReferredProposal, inbound)].state == Sent
  }

  /** The decision may get its acknowledgement, or lose it. */
  predicate AckDue(db: Db, inbound: nat) {
    && inbound in db.decisions && Auto(RedirectAck, inbound) !in db.messages && ProposalOut(db, inbound)
    && db.decisions[inbound].state in {Authorized, Executing}
  }

  function AckObjections(db: Db, inbound: nat, policy: bool, address: string): seq<(bool, string)>
    requires inbound in db.decisions
  {
    var d := db.decisions[inbound];
    [(!NobodyAsked(db, d), "HUMAN_TASK_OPEN"),
     (!LiveWith(d, {Reply, RedirectProposal}, policy), "POLICY_RECHECK_FAILED"),
     (address != "", address)]
  }

  /** An acknowledgement that is not due changes nothing; a due one is queued if and only if nothing objects, and else
      the decision goes to a person. */
  lemma AcknowledgesExactly(db: Db, inbound: nat, now: int, policy: bool, address: string)
    requires T.Consistent(db.tasks)
    ensures inbound !in db.decisions ==> AuthorizeAck(db, inbound, now, policy, address) == None
    ensures inbound in db.decisions && !AckDue(db, inbound) ==>
              AuthorizeAck(db, inbound, now, policy, address) == Some(db)
    ensures AckDue(db, inbound) ==>
              var objection := First(AckObjections(db, inbound, policy, address));
              AuthorizeAck(db, inbound, now, policy, address)
              == if objection != None then
                   AfterRejection(db, inbound, objection.value, HumanRequired, db.messages, db.reservations)
                 else
                   Some(db.(messages := db.messages[Auto(RedirectAck, inbound)
                                                    := Message(Queued, 0, None, Some(now), None, false)]))
  {
    if inbound in db.decisions {
      var d := db.decisions[inbound];
      R.ReplyGateExactly(db.tasks, d.contact, d.conversation);
      var o := AckObjections(db, inbound, policy, address);
      ThreeObjections(o[0], o[1], o[2]);
      hide T.OpenTask, T.ReplyGateClear, T.Consistent, NobodyAsked, First;
    }
  }
}
