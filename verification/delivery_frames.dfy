/**
 What the transactions of the delivery protocol leave alone: the modes of the topics, and which decisions exist.
 */
module DeliveryFrames {
  import opened Common
  import opened Delivery
  import opened DeliveryRuns
  import opened DeliveryInvariant
  import T = HumanTasks
  import C = Capacity

  ghost predicate Frames(db: Db, db': Db) {
    db'.automatic == db.automatic && db'.decisions.Keys == db.decisions.Keys
  }

  lemma RejectFrames(db: Db, i: nat, reason: string, message: Option<Key>, failed: bool)
    requires i in db.decisions
    ensures Frames(db, Commit(db, Reject(db, i, reason, message, failed)))
  {
    hide T.OpenTask;
  }

  lemma WritersFrames(db: Db, i: nat, now: int, checks: AuthorizeChecks, policy: bool, address: string)
    ensures Frames(db, Commit(db, AuthorizeReply(db, i, now, checks)))
    ensures Frames(db, Commit(db, AuthorizeAck(db, i, now, policy, address)))
  {
    hide Reject, C.ReserveForDecision, T.ReplyGateClear, PolicyClear;
    var v := AuthorizeVerdict(db, i, now, checks);
    if v.Rejects? { RejectFrames(db.(reservations := v.reservations), i, v.reason, None, v.failed); }
    var u := AckVerdict(db, i, policy, address);
    if u.Rejects? { RejectFrames(db, i, u.reason, None, u.failed); }
  }

  lemma PrepareFrames(db: Db, key: Key, now: int, gate: SendChecks)
    ensures Prepare(db, key, now, gate).Stopped? ==> Frames(db, Prepare(db, key, now, gate).db)
  {
    hide Reject, SendVerdict, ScheduledOutcome;
    if key in db.messages && key.Auto? {
      SendVerdictEffect(db, key.kind, key.inbound, now, gate);
      var v := SendVerdict(db, key.kind, key.inbound, now, gate);
      if v.Rejects? { RejectFrames(db, key.inbound, v.reason, Some(key), v.failed); }
    }
  }

  lemma ErrorFrames(w: World, key: Key, now: int, ambiguous: bool)
    ensures Frames(w.db, ErrorStep(w, key, now, ambiguous).db)
  {
    hide Reject;
    if key in w.db.messages && key.Auto? && key.inbound in w.db.decisions {
      RejectFrames(WithRow(w.db, key, w.db.messages[key].(state := SendFailed, nextAttemptAt := None)), key.inbound,
                   "GMAIL_DELIVERY_FAILED", Some(key), true);
    }
  }

  lemma SettleFrames(sent: Db, kind: Kind, i: nat, a: nat, thread: string, connected: bool)
    ensures Frames(sent, Commit(sent, ConfirmAutomatic(sent, kind, i, thread, connected)))
    ensures Frames(sent, Commit(sent, ConfirmScheduled(sent, a, thread, connected)))
  {
    hide T.OpenTask, TieThread, ProposalThreads, Reject;
    if i in sent.decisions {
      var executing := sent.(decisions := sent.decisions[i := sent.decisions[i].(state := Executing)]);
      RejectFrames(executing, i, "GMAIL_THREAD_OWNERSHIP_CONFLICT", None, true);
      RejectFrames(sent, i, "GMAIL_REPLY_THREAD_MISMATCH", Some(Auto(kind, i)), true);
    }
  }

  lemma ConfirmFrames(w: World, key: Key, now: int, thread: string, connected: bool)
    ensures Frames(w.db, ConfirmStep(w, key, now, thread, connected).db)
  {
    hide ConfirmAutomatic, ConfirmScheduled, Tied;
    if key in w.db.messages {
      var sent := WithRow(w.db, key, SentRow(w.db.messages[key], now));
      match key
      case Auto(kind, i) => SettleFrames(sent, kind, i, 0, thread, connected);
      case Scheduled(a) => SettleFrames(sent, AutomaticReply, 0, a, thread, connected);
    }
  }

  lemma AnswerFrames(w: World, key: Key, now: int, answer: Answer)
    ensures Frames(w.db, AnswerStep(w, key, now, answer).db)
  {
    hide ErrorStep, ConfirmStep;
    match answer
    case Accepted(thread, connected) => ConfirmFrames(w, key, now, thread, connected);
    case Ambiguous => ErrorFrames(w, key, now, true);
    case _ => ErrorFrames(w, key, now, false);
  }

  lemma CreateFrames(db: Db, a: nat, now: int, c: Option<nat>)
    ensures Frames(db, Commit(db, CreateScheduled(db, a, now, c)))
  {
    hide T.OpenTask, C.ReserveForAttempt;
  }

  lemma SmallFrames(db: Db, a: nat, now: int, i: nat)
    ensures Frames(db, ApproveScheduled(db, a, now)) && Frames(db, CancelScheduled(db, a))
    ensures Frames(db, ManualReplyImported(db, i))
  {
    hide T.ResolveForManualReply;
  }

  /** Only a mode change changes a mode, and only a new decision adds one. */
  lemma ModesAndDecisionsStay(w: World, op: Op)
    requires Enabled(w, op)
    requires !(op.DoPrepare? && Prepare(w.db, op.key, op.now, op.gate).Effect?)
    ensures !op.DoSetMode? ==> Step(w, op).db.automatic == w.db.automatic
    ensures !op.Decide? ==> Step(w, op).db.decisions.Keys == w.db.decisions.Keys
  {
    hide Prepare, AuthorizeReply, AuthorizeAck, CreateScheduled, ErrorStep, AnswerStep, T.ApplyTask, Commit,
         ManualReplyImported, ApproveScheduled, CancelScheduled;
    match op
    case DoAuthorizeReply(i, now, checks) => WritersFrames(w.db, i, now, checks, true, "");
    case DoAuthorizeAck(i, now, policy, address) =>
      WritersFrames(w.db, i, now, AuthorizeChecks(true, true, true, true, ""), policy, address);
    case DoCreateScheduled(a, now, c) => CreateFrames(w.db, a, now, c);
    case DoApproveScheduled(a, now) => SmallFrames(w.db, a, now, 0);
    case DoCancelScheduled(a) => SmallFrames(w.db, a, 0, 0);
    case DoManualReply(i) => SmallFrames(w.db, 0, 0, i);
    case DoCancelCampaign(_) =>
    case DoPrepare(_, k, now, gate) => PrepareFrames(w.db, k, now, gate);
    case RecordFailure(p, now) => ErrorFrames(w, w.workers[p].key, now, false);
    case EndSend(p, now, answer) => AnswerFrames(w, w.workers[p].key, now, answer);
    case EndLookup(p, now, answer) => AnswerFrames(w, w.workers[p].key, now, answer);
    case _ =>
  }
}
