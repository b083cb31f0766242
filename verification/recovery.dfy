/**
 The recovery sweep (`automation/tasks.py`, `pending_reply_decision_ids`, `recoverable_outbound_ids`): in serial
 runs it forgets no message and no owed acknowledgement.

 The sweep skips queued automatic messages. They are safe only because their decision is still pending and
 executing that decision delivers exactly that message; `NoOrphans` is that fact.
 */
module Recovery {
  import opened Common
  import opened Delivery
  import opened DeliveryRuns
  import opened DeliveryInvariant
  import opened DeliverySerial
  import T = HumanTasks
  import C = Capacity

  // ---------- the sweep ----------

  datatype Job = ExecuteDecision(inbound: nat) | Deliver(key: Key) | Reconcile(key: Key)

  predicate PendingDecision(db: Db, inbound: nat) {
    inbound in db.decisions && db.decisions[inbound].mode.Live? && PendingState(db.decisions[inbound].state)
  }

  predicate Recoverable(m: Message, now: int) {
    match m.state
    case Queued => m.nextAttemptAt.None? || m.nextAttemptAt.value <= now
    case Sending => m.startedAt.Some? && m.startedAt.value <= now - STALE_SENDING_AFTER
    case Reconciling => m.nextAttemptAt.Some? && m.nextAttemptAt.value <= now
    case _ => false
  }

  predicate RecoverableKey(db: Db, k: Key, now: int) {
    k in db.messages && Recoverable(db.messages[k], now)
  }

  /** The jobs a sweep at `now` owes: no less, and nothing else. */
  ghost predicate IsJob(db: Db, now: int, job: Job) {
    match job
    case ExecuteDecision(i) => PendingDecision(db, i)
    case Reconcile(k) => RecoverableKey(db, k, now) && InFlight(db.messages[k].state)
    case Deliver(k) => RecoverableKey(db, k, now) && db.messages[k].state.Queued? && k.Scheduled?
  }

  /** The message `execute_reply_decision` passes to delivery, once `authorize_reply_decision` has found the
      decision's message; `None` means it goes on to authorise the acknowledgement. */
  function NextDelivery(db: Db, inbound: nat): Option<Key> {
    if inbound !in db.decisions then None
    else if !db.decisions[inbound].action.RedirectProposal? then Some(Auto(AutomaticReply, inbound))
    else if !ProposalSent(db, inbound) then Some(Auto(ReferredProposal, inbound))
    else if Auto(RedirectAck, inbound) in db.messages then Some(Auto(RedirectAck, inbound))
    else None
  }

  /** When the sweep must pick the row up at the latest. */
  function Deadline(m: Message): int {
    if m.state.Sending? && m.startedAt.Some? then m.startedAt.value + STALE_SENDING_AFTER
    else if m.nextAttemptAt.Some? then m.nextAttemptAt.value
    else 0
  }

  // ---------- no orphans ----------

  /** A queued automatic message belongs to a pending decision. */
  ghost predicate QueuedIsPending(db: Db) {
    forall k :: k in db.messages && k.Auto? && db.messages[k].state.Queued? ==> PendingDecision(db, k.inbound)
  }

  /** An acknowledgement exists only beside its confirmed proposal. */
  ghost predicate AckHasProposal(db: Db) {
    forall i: nat :: Auto(RedirectAck, i) in db.messages ==> ProposalSent(db, i)
  }

  /** A confirmed proposal without acknowledgement is pending, or in the hands of a person. */
  ghost predicate OwedIsPending(db: Db) {
    forall i: nat :: ProposalSent(db, i) && Auto(RedirectAck, i) !in db.messages && i in db.decisions ==>
      db.decisions[i].state in {Authorized, Executing, HumanRequired, ManualReplyRecorded}
  }

  /** Automatic rows exist only for live decisions. */
  ghost predicate AutomaticIsLive(db: Db) {
    forall k :: k in db.messages && k.Auto? && k.inbound in db.decisions ==> db.decisions[k.inbound].mode.Live?
  }

  ghost predicate NoOrphans(db: Db) {
    QueuedIsPending(db) && AckHasProposal(db) && OwedIsPending(db) && AutomaticIsLive(db)
  }

  /** The rows that a rejection of `i` would strand: queued messages of the decision other than `message`. */
  ghost predicate NothingElseQueued(db: Db, i: nat, message: Option<Key>) {
    forall kind: Kind :: Auto(kind, i) in db.messages && db.messages[Auto(kind, i)].state.Queued? ==>
      message == Some(Auto(kind, i))
  }

  /** Within one decision at most one message can be waiting to leave. */
  lemma OneQueuedPerDecision(db: Db, kind: Kind, i: nat)
    requires RowsOk(db) && AckHasProposal(db)
    requires Auto(kind, i) in db.messages && !db.messages[Auto(kind, i)].state.Sent?
    ensures NothingElseQueued(db, i, Some(Auto(kind, i)))
  {
    forall other: Kind | Auto(other, i) in db.messages && db.messages[Auto(other, i)].state.Queued?
      ensures other == kind
    {
      assert KindAllowed(db.decisions[i].action, kind) && KindAllowed(db.decisions[i].action, other);
      if kind.RedirectAck? || other.RedirectAck? { assert ProposalSent(db, i); }
    }
  }

  lemma RejectNoOrphans(db: Db, i: nat, reason: string, message: Option<Key>, failed: bool)
    requires NoOrphans(db) && i in db.decisions && NothingElseQueued(db, i, message)
    requires !failed ==> !ProposalSent(db, i)
    ensures NoOrphans(Commit(db, Reject(db, i, reason, message, failed)))
  {
    hide T.OpenTask;
    var db' := Commit(db, Reject(db, i, reason, message, failed));
    if db' != db {
      assert forall j :: ProposalSent(db', j) <==> ProposalSent(db, j);
      forall k | k in db'.messages && k.Auto? && db'.messages[k].state.Queued? ensures PendingDecision(db', k.inbound) {
        assert db.messages[k].state.Queued? && k == Auto(k.kind, k.inbound);
      }
    }
  }

  lemma AuthorizeNoOrphans(db: Db, i: nat, now: int, checks: AuthorizeChecks)
    requires NoOrphans(db) && RowsOk(db) && ReservationsOk(db)
    ensures NoOrphans(Commit(db, AuthorizeReply(db, i, now, checks)))
  {
    hide AuthorizeVerdict, Reject, RowsOk, ReservationsOk;
    AuthorizeVerdictEffect(db, i, now, checks);
    var v := AuthorizeVerdict(db, i, now, checks);
    if v.Rejects? {
      NoMessageNoneQueued(db, i);
      RejectNoOrphans(db.(reservations := v.reservations), i, v.reason, None, v.failed);
    } else if v.Allows? {
      var db' := Commit(db, AuthorizeReply(db, i, now, checks));
      assert forall j :: ProposalSent(db', j) <==> ProposalSent(db, j);
    }
  }

  lemma NoMessageNoneQueued(db: Db, i: nat)
    requires !HasAutomatic(db, i)
    ensures NothingElseQueued(db, i, None)
  {
    forall kind: Kind ensures Auto(kind, i) !in db.messages {
      match kind case AutomaticReply => case ReferredProposal => case RedirectAck =>
    }
  }

  lemma AckNoOrphans(db: Db, i: nat, now: int, policy: bool, address: string)
    requires NoOrphans(db) && RowsOk(db)
    ensures NoOrphans(Commit(db, AuthorizeAck(db, i, now, policy, address)))
  {
    hide AckVerdict, Reject;
    AckVerdictEffect(db, i, policy, address);
    var v := AckVerdict(db, i, policy, address);
    if v.Rejects? {
      AckVerdictFails(db, i, policy, address);
      SentProposalBlocks(db, i);
      RejectNoOrphans(db, i, v.reason, None, v.failed);
    } else if v.Allows? {
      var db' := Commit(db, AuthorizeAck(db, i, now, policy, address));
      assert forall j :: ProposalSent(db', j) <==> ProposalSent(db, j);
    }
  }

  lemma AckVerdictFails(db: Db, i: nat, policy: bool, address: string)
    ensures AckVerdict(db, i, policy, address).Rejects? ==> AckVerdict(db, i, policy, address).failed
  {
    hide T.ReplyGateClear;
  }

  /** With its proposal out and no acknowledgement yet, a decision has nothing queued. */
  lemma SentProposalBlocks(db: Db, i: nat)
    requires RowsOk(db) && AwaitingAck(db, i)
    ensures NothingElseQueued(db, i, None)
  {
    assert KindAllowed(db.decisions[i].action, ReferredProposal);
  }

  lemma PrepareNoOrphans(db: Db, key: Key, now: int, gate: SendChecks)
    requires NoOrphans(db) && RowsOk(db) && ReservationsOk(db)
    ensures match Prepare(db, key, now, gate)
            case Raised => true
            case Stopped(db') => NoOrphans(db')
            case Effect(db') => NoOrphans(db')
  {
    hide Reject, SendVerdict, ScheduledOutcome, ReservationsOk, NothingElseQueued;
    if key in db.messages && db.messages[key].state.Queued? && key.Auto? {
      SendVerdictEffect(db, key.kind, key.inbound, now, gate);
      SendVerdictFails(db, key.kind, key.inbound, now, gate);
      OneQueuedPerDecision(db, key.kind, key.inbound);
      var v := SendVerdict(db, key.kind, key.inbound, now, gate);
      if v.Rejects? {
        RejectNoOrphans(db, key.inbound, v.reason, Some(key), v.failed);
        return;
      }
    }
    ScheduledStays(db, key, now, gate);
    match Prepare(db, key, now, gate)
    case Raised =>
    case Stopped(db') => RowNoOrphans(db, db', key);
    case Effect(db') => RowNoOrphans(db, db', key);
  }

  lemma ScheduledStays(db: Db, key: Key, now: int, gate: SendChecks)
    ensures key.Scheduled? ==> ScheduledOutcome(db, key.attempt, now, gate) in {Ineligible, SendFailed, Sending}
  {
    hide ScheduledOutcome;
    if key.Scheduled? { ScheduledOutcomeEffect(db, key.attempt, now, gate); }
  }

  lemma SendVerdictFails(db: Db, kind: Kind, i: nat, now: int, gate: SendChecks)
    ensures SendVerdict(db, kind, i, now, gate).Rejects? ==> SendVerdict(db, kind, i, now, gate).failed
  {
    hide AutomaticClear, RateClear;
  }

  /** One row moved between states other than queued and sent, its decision at most set to executing. */
  lemma RowNoOrphans(db: Db, db': Db, key: Key)
    requires NoOrphans(db) && key in db.messages && key in db'.messages
    requires db'.messages == db.messages[key := db'.messages[key]]
    requires db'.messages[key].state.Sent? <==> db.messages[key].state.Sent?
    requires db'.messages[key].state.Queued? ==> db.messages[key].state.Queued? || key.Scheduled?
    requires || db'.decisions == db.decisions
             || (key.Auto? && key.inbound in db.decisions
                 && db'.decisions == WithDecisionState(db, key.inbound, Executing).decisions)
    ensures NoOrphans(db')
  {
    assert forall j :: ProposalSent(db', j) <==> ProposalSent(db, j);
  }

  lemma ErrorNoOrphans(db: Db, key: Key, now: int, ambiguous: bool)
    requires NoOrphans(db) && RowsOk(db) && key in db.messages && !db.messages[key].state.Sent?
    ensures NoOrphans(Commit(db, RecordError(db, key, now, ambiguous)))
  {
    hide Reject, NoOrphans, RowsOk, NothingElseQueued;
    var m := db.messages[key];
    if ambiguous {
      RowNoOrphans(db, WithRow(db, key, m.(state := Reconciling, nextAttemptAt := Some(now + RECONCILE_AFTER))), key);
    } else {
      var failed := WithRow(db, key, m.(state := SendFailed, nextAttemptAt := None));
      RowNoOrphans(db, failed, key);
      if key.Auto? && key.inbound in db.decisions {
        QueuedParts(db);
        OneQueuedPerDecision(db, key.kind, key.inbound);
        StillNothingElse(db, failed, key);
        RejectNoOrphans(failed, key.inbound, "GMAIL_DELIVERY_FAILED", Some(key), true);
      }
    }
  }

  lemma QueuedParts(db: Db)
    requires NoOrphans(db)
    ensures AckHasProposal(db)
  {
  }

  lemma StillNothingElse(db: Db, db': Db, key: Key)
    requires key.Auto? && NothingElseQueued(db, key.inbound, Some(key))
    requires key in db'.messages && db'.messages == db.messages[key := db'.messages[key]]
    ensures NothingElseQueued(db', key.inbound, Some(key))
  {
  }

  lemma ConfirmKeepsQueued(db: Db, db': Db, key: Key, now: int, tied: bool)
    requires NoOrphans(db) && RowsOk(db)
    requires ConfirmsRow(db, db', key, now, tied) && InFlight(db.messages[key].state)
    ensures QueuedIsPending(db')
  {
    hide RowOk, ProposalSent;
    if key.Auto? { OneQueuedPerDecision(db, key.kind, key.inbound); }
    forall k | k in db'.messages && k.Auto? && db'.messages[k].state.Queued? ensures PendingDecision(db', k.inbound) {
      assert db.messages[k].state.Queued? && k == Auto(k.kind, k.inbound);
    }
  }

  lemma ConfirmKeepsOwed(db: Db, db': Db, key: Key, now: int, tied: bool)
    requires NoOrphans(db) && RowsOk(db)
    requires ConfirmsRow(db, db', key, now, tied) && InFlight(db.messages[key].state)
    ensures AckHasProposal(db') && OwedIsPending(db') && AutomaticIsLive(db')
  {
    hide RowOk, PendingDecision, QueuedIsPending;
    assert forall j :: ProposalSent(db', j) <==> ProposalSent(db, j) || key == Auto(ReferredProposal, j);
    forall j: nat | ProposalSent(db', j) && Auto(RedirectAck, j) !in db'.messages && j in db'.decisions
      ensures db'.decisions[j].state in {Authorized, Executing, HumanRequired, ManualReplyRecorded}
    {
      if key.Auto? && key.inbound == j && !key.kind.ReferredProposal? {
        assert KindAllowed(db.decisions[j].action, key.kind);
        assert KindAllowed(db.decisions[j].action, ReferredProposal);
      }
    }
  }

  lemma ConfirmNoOrphans(db: Db, db': Db, key: Key, now: int, tied: bool)
    requires NoOrphans(db) && RowsOk(db)
    requires ConfirmsRow(db, db', key, now, tied) && InFlight(db.messages[key].state)
    ensures NoOrphans(db')
  {
    ConfirmKeepsQueued(db, db', key, now, tied);
    ConfirmKeepsOwed(db, db', key, now, tied);
  }

  lemma AnswerNoOrphans(w: World, key: Key, now: int, answer: Answer)
    requires NoOrphans(w.db) && RowsOk(w.db) && key in w.db.messages && InFlight(w.db.messages[key].state)
    ensures NoOrphans(AnswerStep(w, key, now, answer).db)
  {
    hide NoOrphans, RowsOk, Confirm, RecordError;
    match answer
    case Accepted(thread, connected) =>
      if Confirm(w.db, key, now, thread, connected).Some? {
        ConfirmEffect(w.db, key, now, thread, connected);
        ConfirmNoOrphans(w.db, Confirm(w.db, key, now, thread, connected).value, key, now,
                         Tied(w.db, key, thread, connected));
      }
    case Ambiguous => ErrorNoOrphans(w.db, key, now, true);
    case _ => ErrorNoOrphans(w.db, key, now, false);
  }

  /** A change confined to scheduled rows. */
  lemma ScheduledRowsNoOrphans(db: Db, db': Db)
    requires NoOrphans(db) && db'.decisions == db.decisions
    requires forall k: Key :: k.Auto? ==> Row(db', k) == Row(db, k)
    ensures NoOrphans(db')
  {
    forall j: nat ensures ProposalSent(db', j) <==> ProposalSent(db, j) {
      assert Row(db', Auto(ReferredProposal, j)) == Row(db, Auto(ReferredProposal, j));
    }
    forall k: Key | k.Auto? ensures k in db'.messages <==> k in db.messages {
      assert Row(db', k) == Row(db, k);
    }
    forall k: Key | k.Auto? && k in db.messages ensures db'.messages[k] == db.messages[k] {
      assert Row(db', k) == Row(db, k);
    }
  }

  function Row(db: Db, k: Key): Option<Message> {
    if k in db.messages then Some(db.messages[k]) else None
  }

  lemma CreateNoOrphans(db: Db, a: nat, now: int, c: Option<nat>)
    requires NoOrphans(db)
    ensures NoOrphans(Commit(db, CreateScheduled(db, a, now, c)))
  {
    hide T.OpenTask, C.ReserveForAttempt, NoOrphans;
    ScheduledRowsNoOrphans(db, Commit(db, CreateScheduled(db, a, now, c)));
  }

  lemma SmallNoOrphans(db: Db, a: nat, now: int)
    requires NoOrphans(db)
    ensures NoOrphans(ApproveScheduled(db, a, now)) && NoOrphans(CancelScheduled(db, a))
  {
    hide NoOrphans;
    ScheduledRowsNoOrphans(db, ApproveScheduled(db, a, now));
    ScheduledRowsNoOrphans(db, CancelScheduled(db, a));
  }

  lemma ManualNoOrphans(db: Db, i: nat)
    requires NoOrphans(db)
    ensures NoOrphans(ManualReplyImported(db, i))
  {
    hide T.ResolveForManualReply;
    assert forall j :: ProposalSent(ManualReplyImported(db, i), j) <==> ProposalSent(db, j);
  }

  lemma CampaignNoOrphans(db: Db, inbounds: set<nat>)
    requires NoOrphans(db)
    ensures NoOrphans(CancelCampaign(db, inbounds))
  {
    assert forall j :: ProposalSent(CancelCampaign(db, inbounds), j) <==> ProposalSent(db, j);
  }

  lemma RecordNoOrphans(w: World, op: Op)
    requires NoOrphans(w.db) && RowsOk(w.db) && Enabled(w, op)
    requires op.Decide? || op.PlanAttempt? || op.DoTask? || op.DoSetMode?
    ensures NoOrphans(Step(w, op).db)
  {
    hide T.ApplyTask;
    assert forall j :: ProposalSent(Step(w, op).db, j) <==> ProposalSent(w.db, j);
  }

  lemma StepNoOrphans(w: World, op: Op)
    requires SerialInv(w) && NoOrphans(w.db) && Enabled(w, op) && Serial(w, op)
    ensures NoOrphans(Step(w, op).db)
  {
    hide Inv, Prepare, AuthorizeReply, AuthorizeAck, CreateScheduled, RecordError, ManualReplyImported,
         ApproveScheduled, CancelScheduled, CancelCampaign, AnswerStep, RowsOk, ReservationsOk, T.ApplyTask, OneWorker,
         WorkersHoldRows, NoOrphans;
    InvRows(w);
    match op
    case Decide(_, _) => RecordNoOrphans(w, op);
    case PlanAttempt(_, _) => RecordNoOrphans(w, op);
    case DoTask(_) => RecordNoOrphans(w, op);
    case DoSetMode(_, _, _) => RecordNoOrphans(w, op);
    case DoAuthorizeReply(i, now, checks) => AuthorizeNoOrphans(w.db, i, now, checks);
    case DoAuthorizeAck(i, now, policy, address) => AckNoOrphans(w.db, i, now, policy, address);
    case DoCreateScheduled(a, now, c) => CreateNoOrphans(w.db, a, now, c);
    case DoApproveScheduled(a, now) => SmallNoOrphans(w.db, a, now);
    case DoCancelScheduled(a) => SmallNoOrphans(w.db, a, 0);
    case DoManualReply(i) => ManualNoOrphans(w.db, i);
    case DoCancelCampaign(inbounds) => CampaignNoOrphans(w.db, inbounds);
    case DoPrepare(_, k, now, gate) => PrepareNoOrphans(w.db, k, now, gate);
    case RecordFailure(p, now) => HeldRow(w, p); ErrorNoOrphans(w.db, w.workers[p].key, now, false);
    case EndSend(p, now, answer) => HeldRow(w, p); AnswerNoOrphans(w, w.workers[p].key, now, answer);
    case EndLookup(p, now, answer) => HeldRow(w, p); AnswerNoOrphans(w, w.workers[p].key, now, answer);
    case _ =>
  }

  lemma {:induction false} RunNoOrphans(w: World, ops: seq<Op>)
    requires SerialInv(w) && NoOrphans(w.db) && SerialRuns(w, ops) && Runs(w, ops)
    ensures SerialInv(Final(w, ops)) && NoOrphans(Final(w, ops).db)
    decreases |ops|
  {
    hide Inv, Step, Enabled, Serial, OneWorker, WorkersHoldRows, NoOrphans;
    if ops != [] {
      SerialStepKeepsInv(w, ops[0]);
      StepNoOrphans(w, ops[0]);
      RunNoOrphans(Step(w, ops[0]), ops[1..]);
    }
  }

  lemma InitialSerial(w: World)
    requires Initial(w)
    ensures SerialInv(w) && NoOrphans(w.db)
  {
    InitialInv(w);
    hide Inv;
  }

  // ---------- the sweep forgets nothing ----------

  /** What the sweep owes each row that is not finished. */
  ghost predicate Covered(db: Db, k: Key)
    requires k in db.messages
  {
    var m := db.messages[k];
    if InFlight(m.state) then forall now :: now >= Deadline(m) ==> IsJob(db, now, Reconcile(k))
    else if m.state.Queued? && k.Scheduled? then forall now :: now >= Deadline(m) ==> IsJob(db, now, Deliver(k))
    else if m.state.Queued? then
      && (forall now :: IsJob(db, now, ExecuteDecision(k.inbound)))
      && NextDelivery(db, k.inbound) == Some(k)
      && (forall now, checks :: AuthorizeReply(db, k.inbound, now, checks) == Some(db))
    else true
  }

  lemma QueuedAutomaticIsNext(db: Db, k: Key)
    requires NoOrphans(db) && RowsOk(db) && k in db.messages && k.Auto? && db.messages[k].state.Queued?
    ensures NextDelivery(db, k.inbound) == Some(k)
    ensures forall now, checks :: AuthorizeReply(db, k.inbound, now, checks) == Some(db)
  {
    hide T.ReplyGateClear, C.ReserveForDecision, T.OpenTask;
    assert k == Auto(k.kind, k.inbound) && KindAllowed(db.decisions[k.inbound].action, k.kind);
    match k.kind case AutomaticReply => case ReferredProposal => case RedirectAck =>
  }

  /** In every reachable state of a serial run, every message that is queued, being sent or being reconciled is a
      job of the sweep once its deadline has passed; for a queued automatic message that job is its decision, which
      delivers exactly that message. */
  lemma SweepCoversEveryMessage(w: World, ops: seq<Op>, k: Key)
    requires Initial(w) && SerialRuns(w, ops) && Runs(w, ops)
    requires k in Final(w, ops).db.messages
    ensures Covered(Final(w, ops).db, k)
  {
    hide Inv, NoOrphans, OneWorker, WorkersHoldRows, Step, Enabled, NextDelivery, AuthorizeReply;
    InitialSerial(w);
    RunNoOrphans(w, ops);
    var db := Final(w, ops).db;
    InvRows(Final(w, ops));
    RowIsOk(db, k);
    if k.Auto? && db.messages[k].state.Queued? {
      QueuedAutomaticIsNext(db, k);
      QueuedDecisionPends(db, k);
    }
  }

  lemma QueuedDecisionPends(db: Db, k: Key)
    requires NoOrphans(db) && k in db.messages && k.Auto? && db.messages[k].state.Queued?
    ensures PendingDecision(db, k.inbound)
  {
  }

  /** In every reachable state of a serial run, a confirmed proposal whose acknowledgement is still owed (no row
      yet, and no person took the decision over) is a job of the sweep, and executing it goes on to authorise the
      acknowledgement. */
  lemma SweepCoversOwedAcks(w: World, ops: seq<Op>, i: nat, now: int)
    requires Initial(w) && SerialRuns(w, ops) && Runs(w, ops)
    requires var db := Final(w, ops).db;
             && ProposalSent(db, i) && Auto(RedirectAck, i) !in db.messages && i in db.decisions
             && !db.decisions[i].state.HumanRequired? && !db.decisions[i].state.ManualReplyRecorded?
    ensures var db := Final(w, ops).db;
            IsJob(db, now, ExecuteDecision(i)) && NextDelivery(db, i) == None && AwaitingAck(db, i)
  {
    hide Inv, OneWorker, WorkersHoldRows, Step, Enabled, ReservationsOk;
    InitialSerial(w);
    RunNoOrphans(w, ops);
    InvRows(Final(w, ops));
    assert KindAllowed(Final(w, ops).db.decisions[i].action, ReferredProposal);
  }

  // ---------- why runs must be serial ----------

  /** A queued automatic message that the sweep would never deliver. */
  ghost predicate Stranded(db: Db, k: Key) {
    k in db.messages && k.Auto? && db.messages[k].state.Queued?
    && !(PendingDecision(db, k.inbound) && NextDelivery(db, k.inbound) == Some(k))
  }

  predicate AckQueued(db: Db, key: Key) {
    key.Auto? && key.kind.ReferredProposal? && Auto(RedirectAck, key.inbound) in db.messages
    && db.messages[Auto(RedirectAck, key.inbound)].state.Queued?
  }

  lemma ErrorStrandsQueuedAck(db: Db, key: Key, now: int, ambiguous: bool)
    requires NoOrphans(db) && RowsOk(db) && AckQueued(db, key)
    requires RecordError(db, key, now, ambiguous).Some?
    ensures Stranded(RecordError(db, key, now, ambiguous).value, Auto(RedirectAck, key.inbound))
  {
    hide T.OpenTask, ReviewRequest, RowOk, NoOrphans, RowsOk;
  }

  lemma ErrorLeavesOthers(db: Db, key: Key, now: int, ambiguous: bool, k: Key)
    requires NoOrphans(db) && RowsOk(db) && !AckQueued(db, key)
    requires RecordError(db, key, now, ambiguous).Some?
    ensures !Stranded(RecordError(db, key, now, ambiguous).value, k)
  {
    hide NoOrphans, RowsOk, RecordError, NextDelivery, PendingDecision;
    var db' := RecordError(db, key, now, ambiguous).value;
    if k in db'.messages && k.Auto? && db'.messages[k].state.Queued? {
      ErrorSparesQueued(db, key, now, ambiguous, k);
      QueuedAutomaticIsNext(db, k);
      QueuedDecisionPends(db, k);
      OnlyItsOwnAck(db, key, k);
      ErrorSparesOthers(db, key, now, ambiguous, k);
    }
  }

  /** A row that is queued after the error was queued before, and is not the row of the error. */
  lemma ErrorSparesQueued(db: Db, key: Key, now: int, ambiguous: bool, k: Key)
    requires RecordError(db, key, now, ambiguous).Some?
    requires var db' := RecordError(db, key, now, ambiguous).value; k in db'.messages && db'.messages[k].state.Queued?
    ensures k != key && key in db.messages && k in db.messages && db.messages[k].state.Queued?
  {
    hide T.OpenTask, ReviewRequest;
  }

  /** Beside a queued message of the same decision the error could only hit its confirmed proposal. */
  lemma OnlyItsOwnAck(db: Db, key: Key, k: Key)
    requires NoOrphans(db) && RowsOk(db) && !AckQueued(db, key) && k != key && key in db.messages
    requires k in db.messages && k.Auto? && db.messages[k].state.Queued?
    ensures !(key.Auto? && key.inbound == k.inbound)
  {
    hide RowOk, QueuedIsPending, OwedIsPending, AutomaticIsLive;
  }

  /** The decisions and proposals of other inbound messages are as they were. */
  lemma ErrorSparesOthers(db: Db, key: Key, now: int, ambiguous: bool, k: Key)
    requires RecordError(db, key, now, ambiguous).Some? && k.Auto? && !(key.Auto? && key.inbound == k.inbound)
    ensures var db' := RecordError(db, key, now, ambiguous).value;
            && (PendingDecision(db', k.inbound) <==> PendingDecision(db, k.inbound))
            && NextDelivery(db', k.inbound) == NextDelivery(db, k.inbound)
  {
    hide T.OpenTask, ReviewRequest;
  }

  /** Recording an error, from any state the sweep fully covers and whatever the state of the message, strands a
      message exactly when it hits a proposal whose acknowledgement is already queued. */
  lemma ErrorStrandsExactlyQueuedAck(db: Db, key: Key, now: int, ambiguous: bool)
    requires NoOrphans(db) && RowsOk(db)
    requires RecordError(db, key, now, ambiguous).Some?
    ensures (exists k :: Stranded(RecordError(db, key, now, ambiguous).value, k)) <==>
            key.Auto? && key.kind.ReferredProposal? && Auto(RedirectAck, key.inbound) in db.messages
            && db.messages[Auto(RedirectAck, key.inbound)].state.Queued?
  {
    hide NoOrphans, RowsOk, RecordError, Stranded;
    if AckQueued(db, key) {
      ErrorStrandsQueuedAck(db, key, now, ambiguous);
    } else {
      forall k ensures !Stranded(RecordError(db, key, now, ambiguous).value, k) {
        ErrorLeavesOthers(db, key, now, ambiguous, k);
      }
    }
  }
}
