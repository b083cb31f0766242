/**
 What holds in every run of the delivery protocol, with no assumption on how workers overlap.
 */
module DeliverySafety {
  import opened Common
  import opened Delivery
  import opened DeliveryRuns
  import opened DeliveryInvariant
  import T = HumanTasks
  import C = Capacity

  // ---------- at most once ----------

  function HandOvers(h: seq<Event>, k: Key): nat {
    if h == [] then 0 else HandOvers(h[..|h| - 1], k) + (if h[|h| - 1] == HandedOver(k) then 1 else 0)
  }

  /** Hand-offs that one decision caused, whatever their kind. */
  function HandOversOf(h: seq<Event>, inbound: nat): nat {
    if h == [] then 0
    else
      var e := h[|h| - 1];
      HandOversOf(h[..|h| - 1], inbound)
      + (if e.HandedOver? && e.key.Auto? && e.key.inbound == inbound then 1 else 0)
  }

  lemma {:induction false} CountedIsLogged(h: seq<Event>, k: Key)
    requires AtMostOnce(h)
    ensures HandOvers(h, k) == if HandedOver(k) in h then 1 else 0
  {
    if h != [] {
      var front := h[..|h| - 1];
      assert h == front + [h[|h| - 1]];
      CountedIsLogged(front, k);
    }
  }

  lemma {:induction false} KindsAddUp(h: seq<Event>, i: nat)
    ensures HandOversOf(h, i) == HandOvers(h, Auto(AutomaticReply, i)) + HandOvers(h, Auto(ReferredProposal, i))
                                 + HandOvers(h, Auto(RedirectAck, i))
  {
    if h != [] {
      KindsAddUp(h[..|h| - 1], i);
      var e := h[|h| - 1];
      match e {
        case HandedOver(Auto(AutomaticReply, j)) =>
        case HandedOver(Auto(ReferredProposal, j)) =>
        case HandedOver(Auto(RedirectAck, j)) =>
        case HandedOver(Scheduled(_)) =>
        case Confirmed(_, _) =>
      }
    }
  }

  /** In every interleaving a message is handed to the mail provider at most once, and a decision causes at most
      as many hand-offs as the slots it reserved: none without a reservation, one for a reply, two for a redirect. */
  lemma HandedOverAtMostOnce(w: World, ops: seq<Op>, k: Key, i: nat)
    requires Initial(w) && Runs(w, ops)
    ensures var end := Final(w, ops);
            && HandOvers(end.history, k) <= 1
            && HandOversOf(end.history, i) <= 2
            && (HandOversOf(end.history, i) > 0 ==>
                  && i in end.db.decisions
                  && var source := C.ForDecision(i, end.db.decisions[i].conversation);
                     var r := C.FindReservation(end.db.reservations, source);
                     r.Some? && HandOversOf(end.history, i) <= r.value.slots)
  {
    InitialInv(w);
    RunKeepsInv(w, ops);
    var end := Final(w, ops);
    CountedIsLogged(end.history, k);
    KindsAddUp(end.history, i);
    forall kind: Kind ensures HandOvers(end.history, Auto(kind, i)) > 0 ==>
        Reserved(end.db, i) && KindAllowed(end.db.decisions[i].action, kind)
    {
      CountedIsLogged(end.history, Auto(kind, i));
      if HandedOver(Auto(kind, i)) in end.history { assert Attempted(end.db, Auto(kind, i)); }
    }
    CountedIsLogged(end.history, Auto(AutomaticReply, i));
    CountedIsLogged(end.history, Auto(ReferredProposal, i));
    CountedIsLogged(end.history, Auto(RedirectAck, i));
  }

  // ---------- order over whole runs ----------

  /** An acknowledgement is handed over only after its proposal was confirmed; it exists only if some
      confirmation tied the proposal to a thread of the contact; and a decision completes only after its reply or
      its acknowledgement was confirmed in the right thread. */
  lemma RedirectOrder(w: World, ops: seq<Op>, i: nat)
    requires Initial(w) && Runs(w, ops)
    ensures var end := Final(w, ops);
            var proposal, ack := Auto(ReferredProposal, i), Auto(RedirectAck, i);
            && (forall j :: 0 <= j < |end.history| && end.history[j] == HandedOver(ack) ==>
                  Logged(end.history[..j], proposal))
            && (ack in end.db.messages ==> Confirmed(proposal, true) in end.history)
            && (CompletedIn(end.db, i) ==>
                  Confirmed(Auto(AutomaticReply, i), true) in end.history || Confirmed(ack, true) in end.history)
  {
    InitialInv(w);
    RunKeepsInv(w, ops);
    var end := Final(w, ops);
    forall j | 0 <= j < |end.history| && end.history[j] == HandedOver(Auto(RedirectAck, i))
      ensures Logged(end.history[..j], Auto(ReferredProposal, i))
    {
      assert end.history[j].HandedOver?;
    }
  }

  /** Reservations made by running decisions and attempts obey the sliding window and the daily budget. */
  lemma RunsStayWithinCapacity(w: World, ops: seq<Op>, conversation: nat, from: int, workspace: nat, date: int)
    requires Initial(w) && Runs(w, ops)
    ensures var end := Final(w, ops).db;
            && C.SlotsInWindow(end.reservations, conversation, from, from + 24 * HOUR) <= end.limits.conversation
            && C.SlotsOnDay(end.reservations, workspace, date) <= end.limits.workspace
  {
    InitialInv(w);
    RunKeepsInv(w, ops);
    var end := Final(w, ops).db;
    C.AdmittedWindow(end.reservations, end.limits, conversation, from);
    C.AdmittedDay(end.reservations, end.limits, workspace, date);
  }

  // ---------- open tasks stop automatic messages ----------

  ghost predicate TasksStay(db: Db, db': Db) {
    T.Consistent(db.tasks) ==> T.Consistent(db'.tasks)
  }

  lemma OpenStays(tasks: T.TaskStore, r: T.OpenRequest)
    requires T.Consistent(tasks)
    ensures T.OpenTask(tasks, r).Some? ==> T.Consistent(T.OpenTask(tasks, r).value)
  {
    if T.OpenTask(tasks, r).Some? { T.OpenKeepsConsistent(tasks, r); }
  }

  lemma RejectTasks(db: Db, i: nat, reason: string, message: Option<Key>, failed: bool)
    requires i in db.decisions
    ensures TasksStay(db, Commit(db, Reject(db, i, reason, message, failed)))
  {
    hide T.Consistent, T.OpenTask;
    if T.Consistent(db.tasks) { OpenStays(db.tasks, ReviewRequest(db.decisions[i], i, reason)); }
  }

  lemma AuthorizeTasks(db: Db, i: nat, now: int, checks: AuthorizeChecks, policy: bool, address: string)
    ensures TasksStay(db, Commit(db, AuthorizeReply(db, i, now, checks)))
    ensures TasksStay(db, Commit(db, AuthorizeAck(db, i, now, policy, address)))
  {
    hide T.Consistent, T.OpenTask, Reject, T.ReplyGateClear, C.ReserveForDecision, HasAutomatic, ProposalSent;
    var v := AuthorizeVerdict(db, i, now, checks);
    if v.Rejects? { RejectTasks(db.(reservations := v.reservations), i, v.reason, None, v.failed); }
    var u := AckVerdict(db, i, policy, address);
    if u.Rejects? { RejectTasks(db, i, u.reason, None, u.failed); }
  }

  lemma PrepareTasks(db: Db, key: Key, now: int, gate: SendChecks)
    ensures match Prepare(db, key, now, gate)
            case Raised => true
            case Stopped(db') => TasksStay(db, db')
            case Effect(db') => TasksStay(db, db')
  {
    hide T.Consistent, Reject, SendVerdict, ScheduledOutcome;
    if key in db.messages && key.Auto? {
      SendVerdictEffect(db, key.kind, key.inbound, now, gate);
      var v := SendVerdict(db, key.kind, key.inbound, now, gate);
      if v.Rejects? { RejectTasks(db, key.inbound, v.reason, Some(key), v.failed); }
    }
  }

  lemma AnswerTasks(w: World, key: Key, now: int, answer: Answer)
    ensures TasksStay(w.db, AnswerStep(w, key, now, answer).db)
  {
    match answer
    case Accepted(thread, connected) => ConfirmTasks(w.db, key, now, thread, connected);
    case _ => RecordErrorTasks(w.db, key, now);
  }

  lemma RecordErrorTasks(db: Db, key: Key, now: int)
    ensures TasksStay(db, Commit(db, RecordError(db, key, now, false)))
  {
    hide T.Consistent, Reject;
    if key in db.messages && key.Auto? && key.inbound in db.decisions {
      RejectTasks(WithRow(db, key, db.messages[key].(state := SendFailed, nextAttemptAt := None)), key.inbound,
                  "GMAIL_DELIVERY_FAILED", Some(key), true);
    }
  }

  lemma ConfirmTasks(db: Db, key: Key, now: int, thread: string, connected: bool)
    ensures TasksStay(db, Commit(db, Confirm(db, key, now, thread, connected)))
  {
    hide T.Consistent, T.OpenTask, TieThread;
    if T.Consistent(db.tasks) {
      match key
      case Auto(_, i) =>
        if i in db.decisions {
          OpenStays(db.tasks, ReviewRequest(db.decisions[i], i, "GMAIL_THREAD_OWNERSHIP_CONFLICT"));
          OpenStays(db.tasks, ReviewRequest(db.decisions[i], i, "GMAIL_REPLY_THREAD_MISMATCH"));
        }
      case Scheduled(a) =>
        if a in db.attempts {
          OpenStays(db.tasks, T.OpenRequest(db.attempts[a].contact, None, None, "SCHEDULED_CONTACT",
                                            "GMAIL_THREAD_OWNERSHIP_CONFLICT"));
        }
    }
  }

  lemma StepTasks(w: World, op: Op)
    requires Enabled(w, op) && T.Consistent(w.db.tasks)
    ensures T.Consistent(Step(w, op).db.tasks)
  {
    hide T.Consistent, T.OpenTask, T.ApplyTask, AuthorizeReply, AuthorizeAck, Prepare, AnswerStep, RecordError,
         C.ReserveForAttempt, T.ResolveForManualReply;
    match op
    case DoAuthorizeReply(i, now, checks) => AuthorizeTasks(w.db, i, now, checks, true, "");
    case DoAuthorizeAck(i, now, policy, address) =>
      AuthorizeTasks(w.db, i, now, AuthorizeChecks(true, true, true, true, ""), policy, address);
    case DoCreateScheduled(a, now, c) =>
      if a in w.db.attempts {
        OpenStays(w.db.tasks, T.OpenRequest(w.db.attempts[a].contact, c, None, "SCHEDULED_CONTACT",
                                            "AUTOMATIC_DAILY_LIMIT"));
      }
    case DoManualReply(i) => T.ApplyTaskKeepsConsistent(w.db.tasks, T.ManualReplyTo(i)); ManualReplyTasks(w.db, i);
    case DoTask(t) => T.ApplyTaskKeepsConsistent(w.db.tasks, t);
    case DoPrepare(_, k, now, gate) => PrepareTasks(w.db, k, now, gate);
    case RecordFailure(p, now) => RecordErrorTasks(w.db, w.workers[p].key, now);
    case EndSend(p, now, answer) => AnswerTasks(w, w.workers[p].key, now, answer);
    case EndLookup(p, now, answer) => AnswerTasks(w, w.workers[p].key, now, answer);
    case _ =>
  }

  lemma ManualReplyTasks(db: Db, i: nat)
    ensures ManualReplyImported(db, i).tasks == T.ApplyTask(db.tasks, T.ManualReplyTo(i))
  {
  }

  lemma {:induction false} RunTasks(w: World, ops: seq<Op>)
    requires Runs(w, ops) && T.Consistent(w.db.tasks)
    ensures T.Consistent(Final(w, ops).db.tasks)
    decreases |ops|
  {
    hide T.Consistent, Step, Enabled;
    if ops != [] {
      StepTasks(w, ops[0]);
      RunTasks(Step(w, ops[0]), ops[1..]);
    }
  }

  function ContactOf(db: Db, k: Key): Option<nat> {
    match k
    case Auto(_, i) => if i in db.decisions then Some(db.decisions[i].contact) else None
    case Scheduled(a) => if a in db.attempts then Some(db.attempts[a].contact) else None
  }

  lemma LeavingIsClear(db: Db, k: Key, now: int, gate: SendChecks)
    requires T.Consistent(db.tasks) && RowsOk(db) && ReservationsOk(db)
    requires Prepare(db, k, now, gate).Effect?
    ensures ContactOf(db, k).Some? && !T.OpenFor(db.tasks, ContactOf(db, k).value)
  {
    PrepareEffect(db, k, now, gate);
    hide Prepare, RowsOk, ReservationsOk, T.Consistent, RateClear, T.ReplyGateClear, T.ScheduledGateClear, T.OpenFor;
    match k
    case Auto(kind, i) =>
      AllowedIsReserved(db, kind, i, now, gate);
      T.GatesAskForOpenTasks(db.tasks, [], db.decisions[i].contact, db.decisions[i].conversation);
    case Scheduled(a) => T.GatesAskForOpenTasks(db.tasks, [], db.attempts[a].contact, 0);
  }

  /** Whenever a message leaves the queue, in any run, its contact has no open human task. */
  lemma {:induction false} NothingLeavesWhileATaskIsOpen(w: World, ops: seq<Op>, k: Key, now: int, gate: SendChecks)
    requires Initial(w) && Runs(w, ops)
    requires Prepare(Final(w, ops).db, k, now, gate).Effect?
    ensures var db := Final(w, ops).db;
            ContactOf(db, k).Some? && !T.OpenFor(db.tasks, ContactOf(db, k).value)
  {
    hide Prepare, Inv, RowsOk, ReservationsOk, T.Consistent;
    InitialInv(w);
    RunKeepsInv(w, ops);
    InvRows(Final(w, ops));
    RunTasks(w, ops);
    LeavingIsClear(Final(w, ops).db, k, now, gate);
  }
}
