/**
 What one step of the delivery world does: who may act, what a provider's answer turns into, and what the log says.
 */
module ProtocolRows {
  import opened Common
  import opened Delivery
  import opened DeliveryRuns

  /** Nothing is forbidden that the code does not forbid: a free worker may prepare any message, fail on a queued one,
      and look up any in the air. */
  lemma MayBegin(w: World, p: nat, key: Key, now: int, gate: SendChecks)
    ensures Enabled(w, DoPrepare(p, key, now, gate)) <==> p !in w.workers
    ensures Enabled(w, PrepareFails(p, key)) <==>
              p !in w.workers && key in w.db.messages && w.db.messages[key].state == Queued
    ensures Enabled(w, StartLookup(p, key)) <==>
              && p !in w.workers && key in w.db.messages
              && (w.db.messages[key].state == Sending || w.db.messages[key].state == Reconciling)
  {
  }

  /** An effect may be handed over; whatever was begun may crash, or end in any answer. */
  lemma MayEnd(w: World, p: nat, now: int, answer: Answer)
    ensures Enabled(w, HandOver(p)) <==> p in w.workers && w.workers[p] == Armed(w.workers[p].key)
    ensures Enabled(w, RecordFailure(p, now)) <==> p in w.workers && w.workers[p] == Failing(w.workers[p].key)
    ensures Enabled(w, EndSend(p, now, answer)) <==>
              p in w.workers && w.workers[p] == Calling(w.workers[p].key) && answer != NotFound
    ensures Enabled(w, EndLookup(p, now, answer)) <==> p in w.workers && w.workers[p] == LookingUp(w.workers[p].key)
    ensures Enabled(w, Crash(p)) <==> p in w.workers
  {
  }

  /** Transactions may run at any time; a decision is recorded once for its inbound message, and an attempt planned
      once. */
  lemma TransactionsMayHappen(w: World, op: Op)
    requires || op.DoAuthorizeReply? || op.DoAuthorizeAck? || op.DoCreateScheduled? || op.DoApproveScheduled?
             || op.DoCancelScheduled? || op.DoSetMode? || op.DoManualReply? || op.DoCancelCampaign? || op.DoTask?
             || (op.Decide? && op.inbound !in w.db.decisions
                 && op.decision.state in {ShadowRecorded, NoAction, HumanRequired, Failed})
             || (op.Decide? && op.inbound !in w.db.decisions
                 && op.decision.state == AutoEligible && op.decision.mode == Live)
             || (op.PlanAttempt? && op.attempt !in w.db.attempts)
    ensures Enabled(w, op)
  {
  }

  /** A transaction commits or leaves everything as it was, and neither workers nor log see it. */
  lemma TransactionsCommit(w: World, op: Op)
    requires Enabled(w, op)
    ensures match op
            case Decide(i, d) => Step(w, op) == w.(db := w.db.(decisions := w.db.decisions[i := d]))
            case PlanAttempt(a, info) => Step(w, op) == w.(db := w.db.(attempts := w.db.attempts[a := info]))
            case DoAuthorizeReply(i, now, checks) => Commits(w, Step(w, op), AuthorizeReply(w.db, i, now, checks))
            case DoAuthorizeAck(i, now, policy, address) =>
              Commits(w, Step(w, op), AuthorizeAck(w.db, i, now, policy, address))
            case DoCreateScheduled(a, now, c) => Commits(w, Step(w, op), CreateScheduled(w.db, a, now, c))
            case DoApproveScheduled(a, now) => Commits(w, Step(w, op), Some(ApproveScheduled(w.db, a, now)))
            case DoCancelScheduled(a) => Commits(w, Step(w, op), Some(CancelScheduled(w.db, a)))
            case DoSetMode(t, automatic, _) => Commits(w, Step(w, op), Some(SetMode(w.db, t, automatic)))
            case DoManualReply(i) => Commits(w, Step(w, op), Some(ManualReplyImported(w.db, i)))
            case DoCancelCampaign(inbounds) => Commits(w, Step(w, op), Some(CancelCampaign(w.db, inbounds)))
            case _ => true
  {
  }

  /** `after` is `w` with the tables that the transaction left, if it did not raise. */
  ghost predicate Commits(w: World, after: World, result: Option<Db>) {
    after == if result.Some? then World(result.value, w.workers, w.history, w.started) else w
  }

  /** A preparation arms its worker and counts as started exactly when it gives an effect. */
  lemma PreparesExactly(w: World, p: nat, key: Key, now: int, gate: SendChecks)
    requires Enabled(w, DoPrepare(p, key, now, gate))
    ensures var after := Step(w, DoPrepare(p, key, now, gate));
            match Prepare(w.db, key, now, gate)
            case Effect(db) => after == World(db, w.workers[p := Armed(key)], w.history, w.started + [key])
            case Stopped(db) => after == World(db, w.workers, w.history, w.started)
            case Raised => after == w
  {
  }

  /** A call to the provider begins with a hand-over and is logged then; nothing else is logged as one. */
  lemma CallsAreLogged(w: World, op: Op, p: nat)
    requires Enabled(w, op)
    ensures var after := Step(w, op);
            && ((p in after.workers && after.workers[p].Calling? && !(p in w.workers && w.workers[p].Calling?)) <==>
                  op == HandOver(p))
            && (op == HandOver(p) ==>
                  after == World(w.db, w.workers[p := Calling(w.workers[p].key)],
                                 w.history + [HandedOver(w.workers[p].key)], w.started))
            && (!op.HandOver? ==>
                  after.history == w.history || exists key, tied :: after.history == w.history + [Confirmed(key, tied)])
  {
    hide Prepare, Confirm, RecordError, AuthorizeReply, AuthorizeAck, CreateScheduled;
  }

  /** What an answer turns into: an accepted message is confirmed, an ambiguous answer leaves it to be looked up, a hard
      error and a message not found fail it; then the worker is free. */
  lemma AnswersExactly(w: World, op: Op)
    requires Enabled(w, op) && (op.EndSend? || op.EndLookup?)
    ensures var after := Step(w, op);
            var key := w.workers[op.worker].key;
            && after.workers == w.workers - {op.worker} && after.started == w.started
            && match op.answer
               case Accepted(thread, connected) =>
                 var confirmed := Confirm(w.db, key, op.now, thread, connected);
                 if confirmed.Some? && key in w.db.messages
                    && (w.db.messages[key].state == Sending || w.db.messages[key].state == Reconciling)
                 then after.db == confirmed.value
                      && after.history == w.history + [Confirmed(key, Tied(w.db, key, thread, connected))]
                 else after.db == w.db && after.history == w.history
               case Ambiguous => Records(w, after, RecordError(w.db, key, op.now, true))
               case HardError => Records(w, after, RecordError(w.db, key, op.now, false))
               case NotFound => Records(w, after, RecordError(w.db, key, op.now, false))
  {
    hide Confirm, RecordError, Tied;
  }

  ghost predicate Records(w: World, after: World, result: Option<Db>) {
    after.history == w.history && after.db == if result.Some? then result.value else w.db
  }

  /** The other steps of a worker: a preparation that raised is recorded as a hard error, a look-up begins, a crash
      forgets what was begun. */
  lemma WorkersHoldExactly(w: World, op: Op)
    requires Enabled(w, op)
    ensures match op
            case PrepareFails(p, k) => Step(w, op) == World(w.db, w.workers[p := Failing(k)], w.history, w.started)
            case StartLookup(p, k) => Step(w, op) == World(w.db, w.workers[p := LookingUp(k)], w.history, w.started)
            case Crash(p) => Step(w, op) == World(w.db, w.workers - {p}, w.history, w.started)
            case RecordFailure(p, now) =>
              && Records(w, Step(w, op), RecordError(w.db, w.workers[p].key, now, false))
              && Step(w, op).workers == w.workers - {p} && Step(w, op).started == w.started
            case _ => true
  {
    hide RecordError;
  }
}
