/**
 Runs in which at most one worker is active on a message at a time.

 `_record_outbound_error` overwrites whatever state it finds, so a late answer can undo a confirmation. The code
 keeps deliveries of one message apart by timing only; under that assumption a sent row stays sent and nothing
 but leaving the queue puts a message in flight.
 */
module DeliverySerial {
  import opened Common
  import opened Delivery
  import opened DeliveryRuns
  import opened DeliveryInvariant
  import T = HumanTasks
  import C = Capacity

  ghost predicate Free(w: World, key: Key) {
    forall p :: p in w.workers ==> w.workers[p].key != key
  }

  /** A worker starts on a message only when no other worker is active on it. */
  ghost predicate Serial(w: World, op: Op) {
    match op
    case DoPrepare(_, k, _, _) => Free(w, k)
    case PrepareFails(_, k) => Free(w, k)
    case StartLookup(_, k) => Free(w, k)
    case _ => true
  }

  ghost predicate SerialRuns(w: World, ops: seq<Op>)
    decreases |ops|
  {
    ops == [] || (Enabled(w, ops[0]) && Serial(w, ops[0]) && SerialRuns(Step(w, ops[0]), ops[1..]))
  }

  lemma {:induction false} SerialRunsAreRuns(w: World, ops: seq<Op>)
    requires SerialRuns(w, ops)
    ensures Runs(w, ops)
    decreases |ops|
  {
    hide Enabled, Step, Serial;
    if ops != [] { SerialRunsAreRuns(Step(w, ops[0]), ops[1..]); }
  }

  ghost predicate OneWorker(w: World) {
    forall p, q :: p in w.workers && q in w.workers && p != q ==> w.workers[p].key != w.workers[q].key
  }

  /** A worker that holds an effect or a provider call has its message in flight; one that is about to record a
      failed preparation has a message that never left. */
  ghost predicate WorkersHoldRows(w: World) {
    forall p :: p in w.workers && w.workers[p].key in w.db.messages ==>
      var m := w.db.messages[w.workers[p].key];
      if w.workers[p].Failing? then !InFlight(m.state) && !m.state.Sent? else InFlight(m.state)
  }

  ghost predicate SerialInv(w: World) {
    Inv(w) && OneWorker(w) && WorkersHoldRows(w)
  }

  // ---------- rows move forward ----------

  /** A sent row is final, a row in flight keeps its start, and no other row comes into flight. */
  ghost predicate Advances(db: Db, db': Db, k: Key)
    requires k in db'.messages
  {
    var m' := db'.messages[k];
    if k in db.messages && db.messages[k].state.Sent? then m' == db.messages[k]
    else if k in db.messages && InFlight(db.messages[k].state) then
      m'.startedAt == db.messages[k].startedAt && m'.approved == db.messages[k].approved
    else !InFlight(m'.state) && !m'.state.Sent?
  }

  ghost predicate NoStart(db: Db, db': Db) {
    forall k :: k in db'.messages ==> Advances(db, db', k)
  }

  /** Rows in flight are not touched at all. */
  ghost predicate LeavesInFlight(db: Db, db': Db) {
    && (forall k :: k in db.messages && InFlight(db.messages[k].state) ==>
          k in db'.messages && db'.messages[k] == db.messages[k])
    && NoStart(db, db')
  }

  lemma RejectForward(db: Db, i: nat, reason: string, message: Option<Key>, failed: bool)
    requires i in db.decisions
    requires message.Some? && message.value in db.messages ==> !InFlight(db.messages[message.value].state)
    ensures LeavesInFlight(db, Commit(db, Reject(db, i, reason, message, failed)))
  {
    hide T.OpenTask;
  }

  lemma AuthorizeForward(db: Db, i: nat, now: int, checks: AuthorizeChecks, policy: bool, address: string)
    ensures LeavesInFlight(db, Commit(db, AuthorizeReply(db, i, now, checks)))
    ensures LeavesInFlight(db, Commit(db, AuthorizeAck(db, i, now, policy, address)))
  {
    hide T.OpenTask, Reject, T.ReplyGateClear, C.ReserveForDecision;
    var v := AuthorizeVerdict(db, i, now, checks);
    if v.Rejects? { RejectForward(db.(reservations := v.reservations), i, v.reason, None, v.failed); }
    var u := AckVerdict(db, i, policy, address);
    if u.Rejects? { RejectForward(db, i, u.reason, None, u.failed); }
  }

  lemma PrepareForward(db: Db, key: Key, now: int, gate: SendChecks)
    ensures match Prepare(db, key, now, gate)
            case Raised => true
            case Stopped(db') => LeavesInFlight(db, db')
            case Effect(_) => true
  {
    hide Reject, SendVerdict, ScheduledOutcome;
    if key in db.messages && db.messages[key].state.Queued? {
      match key
      case Auto(kind, i) =>
        SendVerdictEffect(db, kind, i, now, gate);
        var v := SendVerdict(db, kind, i, now, gate);
        if v.Rejects? { RejectForward(db, i, v.reason, Some(key), v.failed); }
      case Scheduled(a) => ScheduledOutcomeEffect(db, a, now, gate);
    }
  }

  lemma CreateForward(db: Db, a: nat, now: int, c: Option<nat>)
    ensures LeavesInFlight(db, Commit(db, CreateScheduled(db, a, now, c)))
  {
    hide T.OpenTask, C.ReserveForAttempt;
  }

  lemma SmallForward(db: Db, a: nat, now: int)
    ensures LeavesInFlight(db, ApproveScheduled(db, a, now))
    ensures LeavesInFlight(db, CancelScheduled(db, a))
  {
  }

  lemma ManualForward(db: Db, i: nat)
    ensures LeavesInFlight(db, ManualReplyImported(db, i))
  {
    hide T.ResolveForManualReply;
  }

  lemma CampaignForward(db: Db, inbounds: set<nat>)
    ensures LeavesInFlight(db, CancelCampaign(db, inbounds))
  {
  }

  /** An error recorded by the only worker of the message touches that row alone. */
  lemma ErrorForward(db: Db, key: Key, now: int, ambiguous: bool)
    requires key in db.messages && !db.messages[key].state.Sent? && (ambiguous ==> InFlight(db.messages[key].state))
    ensures var db' := Commit(db, RecordError(db, key, now, ambiguous));
            && NoStart(db, db')
            && forall k :: k in db.messages && k != key ==> k in db'.messages && db'.messages[k] == db.messages[k]
  {
    hide T.OpenTask;
  }

  lemma ConfirmForward(db: Db, key: Key, now: int, thread: string, connected: bool)
    requires RowsOk(db) && key in db.messages && InFlight(db.messages[key].state)
    ensures var db' := Commit(db, Confirm(db, key, now, thread, connected));
            && NoStart(db, db')
            && forall k :: k in db.messages && k != key ==> k in db'.messages && db'.messages[k] == db.messages[k]
  {
    if Confirm(db, key, now, thread, connected).Some? { ConfirmEffect(db, key, now, thread, connected); }
    hide Confirm, RowsOk;
  }

  lemma AnswerForward(w: World, key: Key, now: int, answer: Answer)
    requires RowsOk(w.db) && key in w.db.messages && InFlight(w.db.messages[key].state)
    ensures var db' := AnswerStep(w, key, now, answer).db;
            && NoStart(w.db, db')
            && forall k :: k in w.db.messages && k != key ==> k in db'.messages && db'.messages[k] == w.db.messages[k]
  {
    hide Confirm, RecordError, RowsOk;
    match answer
    case Accepted(thread, connected) => ConfirmForward(w.db, key, now, thread, connected);
    case Ambiguous => ErrorForward(w.db, key, now, true);
    case _ => ErrorForward(w.db, key, now, false);
  }

  // ---------- the invariant of serial runs ----------

  lemma QuietKeepsWorkers(w: World, db: Db)
    requires OneWorker(w) && WorkersHoldRows(w) && LeavesInFlight(w.db, db)
    requires forall p :: p in w.workers ==> w.workers[p].key in w.db.messages
    ensures OneWorker(w.(db := db)) && WorkersHoldRows(w.(db := db)) && NoStart(w.db, db)
  {
    forall p | p in w.workers && w.workers[p].key in db.messages
      ensures var m := db.messages[w.workers[p].key];
              if w.workers[p].Failing? then !InFlight(m.state) && !m.state.Sent? else InFlight(m.state)
    {
      assert Advances(w.db, db, w.workers[p].key);
    }
  }

  /** When the only worker of a message finishes, the other workers' rows are as they were. */
  lemma FinishKeepsWorkers(w: World, p: nat, db: Db)
    requires OneWorker(w) && WorkersHoldRows(w) && p in w.workers
    requires forall k :: k in w.db.messages && k != w.workers[p].key ==>
               k in db.messages && db.messages[k] == w.db.messages[k]
    requires forall q :: q in w.workers ==> w.workers[q].key in w.db.messages
    ensures var w' := w.(db := db, workers := w.workers - {p}); OneWorker(w') && WorkersHoldRows(w')
  {
  }

  lemma StartKeepsWorkers(w: World, p: nat, key: Key, now: int, gate: SendChecks)
    requires OneWorker(w) && WorkersHoldRows(w) && RowsOk(w.db) && ReservationsOk(w.db)
    requires p !in w.workers && Free(w, key) && Prepare(w.db, key, now, gate).Effect?
    ensures var w' := w.(db := Prepare(w.db, key, now, gate).db, workers := w.workers[p := Armed(key)]);
            OneWorker(w') && WorkersHoldRows(w')
  {
    PrepareEffect(w.db, key, now, gate);
    hide Prepare, RowsOk, ReservationsOk, SendVerdict, ScheduledOutcome;
  }

  lemma SerialStepKeepsWorkers(w: World, op: Op)
    requires SerialInv(w) && Enabled(w, op) && Serial(w, op)
    ensures OneWorker(Step(w, op)) && WorkersHoldRows(Step(w, op))
    ensures !(op.DoPrepare? && Prepare(w.db, op.key, op.now, op.gate).Effect?) ==> NoStart(w.db, Step(w, op).db)
  {
    hide Inv, Prepare, AuthorizeReply, AuthorizeAck, CreateScheduled, ManualReplyImported, ApproveScheduled,
         CancelScheduled, CancelCampaign, AnswerStep, ErrorStep, RowsOk, ReservationsOk, T.ApplyTask, OneWorker,
         WorkersHoldRows, NoStart, LeavesInFlight, Commit, Attempted;
    InvRows(w);
    QuietSelf(w.db, w.db);
    match op
    case Decide(_, _) => RecordedKeepsWorkers(w, Step(w, op).db);
    case PlanAttempt(_, _) => RecordedKeepsWorkers(w, Step(w, op).db);
    case DoTask(_) => RecordedKeepsWorkers(w, Step(w, op).db);
    case DoSetMode(_, _, _) => RecordedKeepsWorkers(w, Step(w, op).db);
    case DoAuthorizeReply(i, now, checks) =>
      AuthorizeForward(w.db, i, now, checks, true, "");
      QuietKeepsWorkers(w, Commit(w.db, AuthorizeReply(w.db, i, now, checks)));
    case DoAuthorizeAck(i, now, policy, address) =>
      AuthorizeForward(w.db, i, now, AuthorizeChecks(true, true, true, true, ""), policy, address);
      QuietKeepsWorkers(w, Commit(w.db, AuthorizeAck(w.db, i, now, policy, address)));
    case DoCreateScheduled(a, now, c) =>
      CreateForward(w.db, a, now, c);
      QuietKeepsWorkers(w, Commit(w.db, CreateScheduled(w.db, a, now, c)));
    case DoApproveScheduled(a, now) => SmallForward(w.db, a, now); QuietKeepsWorkers(w, ApproveScheduled(w.db, a, now));
    case DoCancelScheduled(a) => SmallForward(w.db, a, 0); QuietKeepsWorkers(w, CancelScheduled(w.db, a));
    case DoManualReply(i) => ManualForward(w.db, i); QuietKeepsWorkers(w, ManualReplyImported(w.db, i));
    case DoCancelCampaign(inbounds) =>
      CampaignForward(w.db, inbounds);
      QuietKeepsWorkers(w, CancelCampaign(w.db, inbounds));
    case DoPrepare(p, k, now, gate) => PreparingKeepsWorkers(w, p, k, now, gate);
    case PrepareFails(p, k) => FailingKeepsWorkers(w, p, k); QuietKeepsWorkers(w, w.db);
    case StartLookup(p, k) => TakeKeepsWorkers(w, p, LookingUp(k)); QuietKeepsWorkers(w, w.db);
    case HandOver(p) => CallKeepsWorkers(w, p); QuietKeepsWorkers(w, w.db);
    case RecordFailure(p, now) => FailureKeepsWorkers(w, p, now);
    case EndSend(p, now, answer) => EndKeepsWorkers(w, p, now, answer);
    case EndLookup(p, now, answer) => EndKeepsWorkers(w, p, now, answer);
    case Crash(p) => FinishKeepsWorkers(w, p, w.db); QuietKeepsWorkers(w, w.db);
  }

  lemma RecordedKeepsWorkers(w: World, db: Db)
    requires OneWorker(w) && WorkersHoldRows(w) && db.messages == w.db.messages
    requires forall p :: p in w.workers ==> w.workers[p].key in w.db.messages
    ensures OneWorker(w.(db := db)) && WorkersHoldRows(w.(db := db)) && NoStart(w.db, db)
  {
    QuietSelf(w.db, db);
    hide OneWorker, WorkersHoldRows, LeavesInFlight, NoStart;
    QuietKeepsWorkers(w, db);
  }

  lemma PreparingKeepsWorkers(w: World, p: nat, k: Key, now: int, gate: SendChecks)
    requires OneWorker(w) && WorkersHoldRows(w) && RowsOk(w.db) && ReservationsOk(w.db)
    requires p !in w.workers && Free(w, k)
    requires forall p :: p in w.workers ==> w.workers[p].key in w.db.messages
    ensures match Prepare(w.db, k, now, gate)
            case Raised => NoStart(w.db, w.db)
            case Stopped(db) => OneWorker(w.(db := db)) && WorkersHoldRows(w.(db := db)) && NoStart(w.db, db)
            case Effect(db) =>
              var w' := w.(db := db, workers := w.workers[p := Armed(k)], started := w.started + [k]);
              OneWorker(w') && WorkersHoldRows(w')
  {
    PrepareForward(w.db, k, now, gate);
    QuietSelf(w.db, w.db);
    hide Prepare, RowsOk, ReservationsOk, OneWorker, WorkersHoldRows, LeavesInFlight, NoStart, Free;
    match Prepare(w.db, k, now, gate)
    case Raised => QuietKeepsWorkers(w, w.db);
    case Stopped(db) => QuietKeepsWorkers(w, db);
    case Effect(db) => StartKeepsWorkers(w, p, k, now, gate); ListIrrelevant(w, p, k, db);
  }

  lemma FailingKeepsWorkers(w: World, p: nat, k: Key)
    requires OneWorker(w) && WorkersHoldRows(w) && p !in w.workers && Free(w, k)
    requires k in w.db.messages && w.db.messages[k].state.Queued?
    ensures OneWorker(w.(workers := w.workers[p := Failing(k)]))
            && WorkersHoldRows(w.(workers := w.workers[p := Failing(k)]))
  {
    hide OneWorker, WorkersHoldRows, Free;
    TakeKeepsWorkers(w, p, Failing(k));
  }

  lemma FailureKeepsWorkers(w: World, p: nat, now: int)
    requires OneWorker(w) && WorkersHoldRows(w) && p in w.workers && w.workers[p].Failing?
    requires forall p :: p in w.workers ==> w.workers[p].key in w.db.messages
    ensures var w' := ErrorStep(w, w.workers[p].key, now, false).(workers := w.workers - {p});
            OneWorker(w') && WorkersHoldRows(w') && NoStart(w.db, w'.db)
  {
    HeldRow(w, p);
    ErrorForward(w.db, w.workers[p].key, now, false);
    var w1 := ErrorStep(w, w.workers[p].key, now, false);
    hide RecordError, OneWorker, WorkersHoldRows, NoStart;
    FinishKeepsWorkers(w, p, w1.db);
  }

  lemma QuietSelf(db: Db, db': Db)
    ensures db'.messages == db.messages ==> LeavesInFlight(db, db')
  {
  }

  lemma HeldRow(w: World, p: nat)
    requires WorkersHoldRows(w) && p in w.workers && w.workers[p].key in w.db.messages
    ensures var m := w.db.messages[w.workers[p].key];
            if w.workers[p].Failing? then !InFlight(m.state) && !m.state.Sent? else InFlight(m.state)
  {
  }

  lemma ListIrrelevant(w: World, p: nat, k: Key, db: Db)
    requires var w' := w.(db := db, workers := w.workers[p := Armed(k)]); OneWorker(w') && WorkersHoldRows(w')
    ensures var w' := w.(db := db, workers := w.workers[p := Armed(k)], started := w.started + [k]);
            OneWorker(w') && WorkersHoldRows(w')
  {
  }

  lemma TakeKeepsWorkers(w: World, p: nat, worker: Worker)
    requires OneWorker(w) && WorkersHoldRows(w) && p !in w.workers && Free(w, worker.key)
    requires worker.key in w.db.messages
    requires if worker.Failing? then w.db.messages[worker.key].state.Queued?
             else InFlight(w.db.messages[worker.key].state)
    ensures OneWorker(w.(workers := w.workers[p := worker])) && WorkersHoldRows(w.(workers := w.workers[p := worker]))
  {
  }

  lemma CallKeepsWorkers(w: World, p: nat)
    requires OneWorker(w) && WorkersHoldRows(w) && p in w.workers && w.workers[p].Armed?
    ensures var key := w.workers[p].key;
            var w' := w.(workers := w.workers[p := Calling(key)], history := w.history + [HandedOver(key)]);
            OneWorker(w') && WorkersHoldRows(w')
  {
  }

  lemma EndKeepsWorkers(w: World, p: nat, now: int, answer: Answer)
    requires OneWorker(w) && WorkersHoldRows(w) && RowsOk(w.db)
    requires p in w.workers && !w.workers[p].Failing?
    requires forall q :: q in w.workers ==> w.workers[q].key in w.db.messages
    ensures var w' := AnswerStep(w, w.workers[p].key, now, answer).(workers := w.workers - {p});
            OneWorker(w') && WorkersHoldRows(w') && NoStart(w.db, w'.db)
  {
    var key := w.workers[p].key;
    HeldRow(w, p);
    AnswerForward(w, key, now, answer);
    var w1 := AnswerStep(w, key, now, answer);
    hide AnswerStep, RowsOk, NoStart;
    FinishKeepsWorkers(w, p, w1.db);
  }

  lemma SerialStepKeepsInv(w: World, op: Op)
    requires SerialInv(w) && Enabled(w, op) && Serial(w, op)
    ensures SerialInv(Step(w, op))
  {
    hide Inv, Step, Enabled, Serial, OneWorker, WorkersHoldRows;
    StepKeepsInv(w, op);
    SerialStepKeepsWorkers(w, op);
  }
}
