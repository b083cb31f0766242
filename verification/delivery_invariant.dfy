/**
 The invariant of the delivery protocol, kept by every transaction, provider answer and crash.

 Most transactions are calm: they start no attempt and confirm nothing. `Calm` collects what such a change may
 do to the rows, so each transaction is checked once against it and the invariant is checked once for all.
 */
module DeliveryInvariant {
  import opened Common
  import opened Delivery
  import opened DeliveryRuns
  import T = HumanTasks
  import C = Capacity

  // ---------- what a transaction may change ----------

  /** Rows are never deleted, a decision changes only its state, and reservations are only appended. */
  ghost predicate Extends(db: Db, db': Db) {
    && (forall i :: i in db.decisions ==>
          i in db'.decisions && db'.decisions[i] == db.decisions[i].(state := db'.decisions[i].state))
    && (forall k :: k in db.messages ==> k in db'.messages)
    && (forall a :: a in db.attempts ==> a in db'.attempts && db'.attempts[a] == db.attempts[a])
    && db.reservations <= db'.reservations
    && db.limits == db'.limits
  }

  /** The counters and timestamps that every row carries in each state. */
  predicate RowOk(m: Message) {
    && m.attempts <= 1
    && (m.state in {Queued, ReviewReady, Prepared} ==> m.attempts == 0)
    && (InFlight(m.state) || m.state.Sent? ==> m.attempts == 1)
    && (m.attempts == 1 ==> m.startedAt.Some?)
    && (m.state.Sent? ==> m.sentAt.Some?)
    && (m.state.Reconciling? ==> m.nextAttemptAt.Some?)
  }

  predicate Attempted(db: Db, k: Key) {
    k in db.messages && db.messages[k].attempts == 1
  }

  /** An automatic message belongs to a decision that may send its kind. */
  ghost predicate RowsOk(db: Db) {
    && (forall k :: k in db.messages ==> RowOk(db.messages[k]))
    && (forall k :: k in db.messages && k.Auto? ==>
          k.inbound in db.decisions && KindAllowed(db.decisions[k.inbound].action, k.kind))
    && (forall k :: k in db.messages && k.Scheduled? ==> k.attempt in db.attempts)
  }

  ghost predicate ReservationsOk(db: Db) {
    C.Admitted(db.reservations, db.limits) && C.OnePerSource(db.reservations)
  }

  /** A confirmed proposal whose acknowledgement may still be authorised. */
  predicate AwaitingAck(db: Db, inbound: nat) {
    && ProposalSent(db, inbound)
    && Auto(RedirectAck, inbound) !in db.messages
    && inbound in db.decisions && db.decisions[inbound].state in {Authorized, Executing}
  }

  predicate SentIn(db: Db, k: Key) {
    k in db.messages && db.messages[k].state.Sent?
  }

  predicate CompletedIn(db: Db, inbound: nat) {
    inbound in db.decisions && db.decisions[inbound].state.Completed?
  }

  /** A transaction that starts no attempt, confirms nothing, and owes nobody an acknowledgement. */
  ghost predicate Calm(db: Db, db': Db) {
    && Extends(db, db') && RowsOk(db') && ReservationsOk(db')
    && (forall k :: Attempted(db', k) <==> Attempted(db, k))
    && (forall k :: SentIn(db', k) ==> SentIn(db, k))
    && (forall i :: CompletedIn(db', i) ==> CompletedIn(db, i))
    && (forall i: nat :: Auto(RedirectAck, i) in db'.messages ==> Auto(RedirectAck, i) in db.messages)
    && (forall i :: AwaitingAck(db', i) ==> AwaitingAck(db, i))
  }

  // ---------- calm changes, one at a time ----------

  lemma CalmTransitive(a: Db, b: Db, c: Db)
    requires Calm(a, b) && Calm(b, c)
    ensures Calm(a, c)
  {
    hide RowsOk, ReservationsOk, AwaitingAck, SentIn, CompletedIn, Attempted;
  }

  lemma RowCalm(db: Db, key: Key, m: Message)
    requires RowsOk(db) && ReservationsOk(db) && key in db.messages
    requires RowOk(m) && m.attempts == db.messages[key].attempts && (m.state.Sent? ==> db.messages[key].state.Sent?)
    ensures Calm(db, WithRow(db, key, m))
  {
    hide C.Admitted, C.OnePerSource, RowOk;
  }

  lemma NewRowCalm(db: Db, key: Key, m: Message)
    requires RowsOk(db) && ReservationsOk(db) && key !in db.messages
    requires RowOk(m) && m.attempts == 0
    requires match key
             case Auto(kind, i) => !kind.RedirectAck? && i in db.decisions && KindAllowed(db.decisions[i].action, kind)
             case Scheduled(a) => a in db.attempts
    ensures Calm(db, WithRow(db, key, m))
  {
    hide C.Admitted, C.OnePerSource;
  }

  function WithDecisionState(db: Db, i: nat, state: DecisionState): Db
    requires i in db.decisions
  {
    db.(decisions := db.decisions[i := db.decisions[i].(state := state)])
  }

  lemma DecisionCalm(db: Db, i: nat, state: DecisionState)
    requires RowsOk(db) && ReservationsOk(db) && i in db.decisions
    requires !state.Completed?
    requires state in {Authorized, Executing} ==>
               !ProposalSent(db, i) || Auto(RedirectAck, i) in db.messages
    ensures Calm(db, WithDecisionState(db, i, state))
  {
    hide C.Admitted, C.OnePerSource, RowOk;
  }

  lemma RestCalm(db: Db, db': Db)
    requires RowsOk(db) && ReservationsOk(db) && ReservationsOk(db')
    requires db'.decisions == db.decisions && db'.messages == db.messages && db'.attempts == db.attempts
    requires db.reservations <= db'.reservations && db'.limits == db.limits
    ensures Calm(db, db')
  {
    hide C.Admitted, C.OnePerSource, RowOk;
  }

  // ---------- what each transaction does ----------

  lemma ReserveForDecisionEffect(db: Db, d: Decision, i: nat, now: int)
    requires ReservationsOk(db)
    ensures var r := C.ReserveForDecision(db.reservations, db.limits, d.workspace, i, d.conversation,
                                          SlotsFor(d.action), now);
            r.Some? ==> && db.reservations <= r.value
                        && C.Admitted(r.value, db.limits) && C.OnePerSource(r.value)
  {
    C.ReserveKeepsAdmitted(db.reservations, db.limits,
                           C.ByDecision(d.workspace, i, d.conversation, SlotsFor(d.action), now));
  }

  lemma AuthorizeVerdictEffect(db: Db, i: nat, now: int, checks: AuthorizeChecks)
    requires ReservationsOk(db)
    ensures var v := AuthorizeVerdict(db, i, now, checks);
            v.Rejects? || v.Allows? ==>
              && i in db.decisions && !HasAutomatic(db, i)
              && db.reservations <= v.reservations
              && C.Admitted(v.reservations, db.limits) && C.OnePerSource(v.reservations)
              && (v.Allows? ==> db.decisions[i].state.AutoEligible? && PolicyClear(db.decisions[i], checks.policy))
  {
    hide C.ReserveForDecision, T.ReplyGateClear, C.Admitted, C.OnePerSource;
    if i in db.decisions { ReserveForDecisionEffect(db, db.decisions[i], i, now); }
  }

  lemma RejectEffect(db: Db, i: nat, reason: string, message: Option<Key>, failed: bool)
    requires i in db.decisions && RowsOk(db) && ReservationsOk(db)
    ensures Calm(db, Commit(db, Reject(db, i, reason, message, failed)))
  {
    hide T.OpenTask, RowsOk, ReservationsOk, Calm;
    var db' := Commit(db, Reject(db, i, reason, message, failed));
    var db1 := WithDecisionState(db, i, if failed then HumanRequired else RejectedPolicy);
    RestCalm(db, db);
    if db' != db {
      DecisionCalm(db, i, if failed then HumanRequired else RejectedPolicy);
      CalmIsGood(db, db1);
      var db2 := if message.Some? then db1.(messages := FailRow(db1.messages, message.value)) else db1;
      RestCalm(db1, db1);
      if message.Some? && message.value in db1.messages && !db1.messages[message.value].state.Sent? {
        RowIsOk(db1, message.value);
        RowCalm(db1, message.value, db1.messages[message.value].(state := SendFailed, nextAttemptAt := None));
      }
      CalmIsGood(db1, db2);
      CalmTransitive(db, db1, db2);
      SameReservations(db2, db');
      RestCalm(db2, db');
      CalmTransitive(db, db2, db');
    }
  }

  lemma CalmIsGood(a: Db, b: Db)
    requires Calm(a, b)
    ensures RowsOk(b) && ReservationsOk(b)
  {
    hide RowsOk, ReservationsOk;
  }

  lemma RowIsOk(db: Db, key: Key)
    requires RowsOk(db) && key in db.messages
    ensures RowOk(db.messages[key])
  {
  }

  lemma SameReservations(a: Db, b: Db)
    requires ReservationsOk(a) && a.reservations == b.reservations && a.limits == b.limits
    ensures ReservationsOk(b)
  {
    hide C.Admitted, C.OnePerSource;
  }

  lemma AuthorizeReplyEffect(db: Db, i: nat, now: int, checks: AuthorizeChecks)
    requires RowsOk(db) && ReservationsOk(db)
    ensures Calm(db, Commit(db, AuthorizeReply(db, i, now, checks)))
  {
    hide AuthorizeVerdict, Reject, Calm, RowsOk, C.Admitted, C.OnePerSource;
    AuthorizeVerdictEffect(db, i, now, checks);
    RestCalm(db, db);
    var v := AuthorizeVerdict(db, i, now, checks);
    if v.Rejects? || v.Allows? {
      var db1 := db.(reservations := v.reservations);
      RestCalm(db, db1);
      CalmIsGood(db, db1);
      if v.Rejects? {
        RejectEffect(db1, i, v.reason, None, v.failed);
        CalmTransitive(db, db1, Commit(db1, Reject(db1, i, v.reason, None, v.failed)));
      } else {
        var key := Auto(FirstKind(db.decisions[i].action), i);
        NewRowCalm(db1, key, QueuedMessage(now));
        var db2 := WithRow(db1, key, QueuedMessage(now));
        CalmTransitive(db, db1, db2);
        CalmIsGood(db1, db2);
        DecisionCalm(db2, i, Authorized);
        CalmTransitive(db, db2, WithDecisionState(db2, i, Authorized));
      }
    }
  }

  lemma AckVerdictEffect(db: Db, i: nat, policy: bool, address: string)
    ensures var v := AckVerdict(db, i, policy, address);
            && (v.Rejects? || v.Allows? ==> i in db.decisions && AwaitingAck(db, i))
            && (v.Allows? ==> PolicyClear(db.decisions[i], policy))
  {
    hide T.ReplyGateClear;
  }

  /** Only a decision awaiting its acknowledgement gets one. */
  lemma AuthorizeAckEffect(db: Db, i: nat, now: int, policy: bool, address: string)
    requires RowsOk(db) && ReservationsOk(db)
    ensures var db' := Commit(db, AuthorizeAck(db, i, now, policy, address));
            || Calm(db, db')
            || (&& AckVerdict(db, i, policy, address).Allows? && AwaitingAck(db, i)
                && db' == WithRow(db, Auto(RedirectAck, i), QueuedMessage(now)))
  {
    hide AckVerdict, Reject, Calm, RowsOk, ReservationsOk;
    AckVerdictEffect(db, i, policy, address);
    RestCalm(db, db);
    var v := AckVerdict(db, i, policy, address);
    if v.Rejects? { RejectEffect(db, i, v.reason, None, v.failed); }
  }

  /** The changes of a preparation that hands the worker an effect. */
  ghost predicate StartsAttempt(db: Db, db': Db, key: Key, now: int) {
    && key in db.messages && db.messages[key].state.Queued?
    && db'.messages == db.messages[key := SendingRow(db.messages[key], now)]
    && (match key
        case Auto(_, i) =>
          i in db.decisions && db'.decisions == db.decisions[i := db.decisions[i].(state := Executing)]
        case Scheduled(_) => db'.decisions == db.decisions)
    && db'.attempts == db.attempts && db'.automatic == db.automatic && db'.threads == db.threads
    && db'.reservations == db.reservations && db'.tasks == db.tasks && db'.limits == db.limits
  }

  lemma PrepareEffect(db: Db, key: Key, now: int, checks: SendChecks)
    requires RowsOk(db) && ReservationsOk(db)
    ensures match Prepare(db, key, now, checks)
            case Raised => true
            case Stopped(db') => Calm(db, db')
            case Effect(db') =>
              && StartsAttempt(db, db', key, now)
              && match key
                 case Auto(kind, i) => i in db.decisions && SendVerdict(db, kind, i, now, checks).Allows?
                 case Scheduled(a) => ScheduledOutcome(db, a, now, checks).Sending?
  {
    hide SendVerdict, ScheduledOutcome, Reject, Calm, RowsOk, ReservationsOk;
    RestCalm(db, db);
    if key in db.messages {
      var m := db.messages[key];
      RowIsOk(db, key);
      if !(m.state in {Sent, SendFailed, Cancelled, Ineligible, Reconciling, Sending}) && !m.state.Queued? {
        RowCalm(db, key, m.(state := SendFailed));
      } else if m.state.Queued? {
        match key
        case Auto(kind, i) =>
          SendVerdictEffect(db, kind, i, now, checks);
          var v := SendVerdict(db, kind, i, now, checks);
          if v.Rejects? { RejectEffect(db, i, v.reason, Some(key), v.failed); }
        case Scheduled(a) =>
          ScheduledOutcomeEffect(db, a, now, checks);
          var o := ScheduledOutcome(db, a, now, checks);
          if !o.Sending? { RowCalm(db, key, m.(state := o, nextAttemptAt := None)); }
      }
    }
  }

  lemma SendVerdictEffect(db: Db, kind: Kind, i: nat, now: int, checks: SendChecks)
    ensures var v := SendVerdict(db, kind, i, now, checks);
            && !v.Keeps? && (v.Rejects? || v.Allows? ==> i in db.decisions)
  {
    hide AutomaticClear, RateClear;
  }

  lemma ScheduledOutcomeEffect(db: Db, a: nat, now: int, checks: SendChecks)
    ensures ScheduledOutcome(db, a, now, checks) in {Ineligible, SendFailed, Sending}
  {
    hide ScheduledClear, RateClear;
  }

  lemma RecordErrorEffect(db: Db, key: Key, now: int, ambiguous: bool)
    requires RowsOk(db) && ReservationsOk(db)
    requires key in db.messages && (ambiguous ==> Attempted(db, key))
    ensures Calm(db, Commit(db, RecordError(db, key, now, ambiguous)))
  {
    hide Reject, Calm, RowsOk, ReservationsOk;
    var m := db.messages[key];
    RowIsOk(db, key);
    RestCalm(db, db);
    if ambiguous {
      RowCalm(db, key, m.(state := Reconciling, nextAttemptAt := Some(now + RECONCILE_AFTER)));
    } else {
      var failed := WithRow(db, key, m.(state := SendFailed, nextAttemptAt := None));
      RowCalm(db, key, m.(state := SendFailed, nextAttemptAt := None));
      CalmIsGood(db, failed);
      if key.Auto? && key.inbound in db.decisions {
        RejectEffect(failed, key.inbound, "GMAIL_DELIVERY_FAILED", Some(key), true);
        CalmTransitive(db, failed,
                       Commit(failed, Reject(failed, key.inbound, "GMAIL_DELIVERY_FAILED", Some(key), true)));
      }
    }
  }

  /** The changes of a confirmation: the row becomes sent, and the decision follows the thread it landed in. */
  ghost predicate ConfirmsRow(db: Db, db': Db, key: Key, now: int, tied: bool) {
    && key in db.messages
    && db'.messages == db.messages[key := SentRow(db.messages[key], now)]
    && db'.attempts == db.attempts && db'.reservations == db.reservations && db'.limits == db.limits
    && match key
       case Scheduled(_) => db'.decisions == db.decisions
       case Auto(kind, i) =>
         i in db.decisions &&
         db'.decisions == db.decisions[i := db.decisions[i].(state :=
           if !tied then HumanRequired else if kind.ReferredProposal? then Executing else Completed)]
  }

  lemma ConfirmAutomaticEffect(sent: Db, kind: Kind, i: nat, thread: string, connected: bool)
    requires i in sent.decisions && ConfirmAutomatic(sent, kind, i, thread, connected).Some?
    requires Auto(kind, i) in sent.messages && sent.messages[Auto(kind, i)].state.Sent?
    ensures var r := ConfirmAutomatic(sent, kind, i, thread, connected).value;
            && r.messages == sent.messages && r.attempts == sent.attempts
            && r.reservations == sent.reservations && r.limits == sent.limits
            && r.decisions == sent.decisions[i := sent.decisions[i].(state :=
                 if !Tied(sent, Auto(kind, i), thread, connected) then HumanRequired
                 else if kind.ReferredProposal? then Executing else Completed)]
  {
    hide T.OpenTask, TieThread, ReviewRequest;
  }

  lemma ConfirmScheduledEffect(sent: Db, a: nat, thread: string, connected: bool)
    requires ConfirmScheduled(sent, a, thread, connected).Some?
    ensures var r := ConfirmScheduled(sent, a, thread, connected).value;
            && r.messages == sent.messages && r.attempts == sent.attempts && r.decisions == sent.decisions
            && r.reservations == sent.reservations && r.limits == sent.limits
  {
    hide T.OpenTask, TieThread;
  }

  lemma ConfirmEffect(db: Db, key: Key, now: int, thread: string, connected: bool)
    requires RowsOk(db) && key in db.messages && InFlight(db.messages[key].state)
    requires Confirm(db, key, now, thread, connected).Some?
    ensures ConfirmsRow(db, Confirm(db, key, now, thread, connected).value, key, now, Tied(db, key, thread, connected))
  {
    hide ConfirmAutomatic, ConfirmScheduled, ProposalThreads, TieThread, RowOk, KindAllowed;
    var sent := WithRow(db, key, SentRow(db.messages[key], now));
    match key
    case Auto(kind, i) =>
      ConfirmAutomaticEffect(sent, kind, i, thread, connected);
      SameTies(db, sent, key, thread, connected);
    case Scheduled(a) => ConfirmScheduledEffect(sent, a, thread, connected);
  }

  lemma SameTies(db: Db, db': Db, key: Key, thread: string, connected: bool)
    requires db'.threads == db.threads && db'.decisions == db.decisions && db'.attempts == db.attempts
    ensures Tied(db', key, thread, connected) == Tied(db, key, thread, connected)
  {
  }

  lemma ManualReplyEffect(db: Db, i: nat)
    requires RowsOk(db) && ReservationsOk(db)
    ensures Calm(db, ManualReplyImported(db, i))
  {
    hide T.ResolveForManualReply, C.Admitted, C.OnePerSource;
    var db1 := db.(messages := ManualReplyImported(db, i).messages);
    CancelInboundCalm(db, i);
    CalmIsGood(db, db1);
    var db2 := if i in db1.decisions && !db1.decisions[i].state.Completed?
               then WithDecisionState(db1, i, ManualReplyRecorded) else db1;
    if db2 != db1 { DecisionCalm(db1, i, ManualReplyRecorded); } else { RestCalm(db1, db1); }
    CalmTransitive(db, db1, db2);
    CalmIsGood(db1, db2);
    RestCalm(db2, ManualReplyImported(db, i));
    CalmTransitive(db, db2, ManualReplyImported(db, i));
  }

  lemma CancelInboundCalm(db: Db, i: nat)
    requires RowsOk(db) && ReservationsOk(db)
    ensures Calm(db, db.(messages := ManualReplyImported(db, i).messages))
  {
    hide T.ResolveForManualReply, C.Admitted, C.OnePerSource, RowsOk;
    var db' := db.(messages := ManualReplyImported(db, i).messages);
    CancelInboundRows(db, i);
  }

  lemma CancelInboundRows(db: Db, i: nat)
    requires RowsOk(db)
    ensures RowsOk(db.(messages := ManualReplyImported(db, i).messages))
  {
    hide T.ResolveForManualReply;
  }

  lemma CancelCampaignEffect(db: Db, inbounds: set<nat>)
    requires RowsOk(db) && ReservationsOk(db)
    ensures Calm(db, CancelCampaign(db, inbounds))
  {
    CancelCampaignRows(db, inbounds);
    hide C.Admitted, C.OnePerSource, RowsOk;
  }

  lemma CancelCampaignRows(db: Db, inbounds: set<nat>)
    requires RowsOk(db)
    ensures RowsOk(CancelCampaign(db, inbounds))
  {
  }

  lemma ReserveForAttemptEffect(db: Db, workspace: nat, a: nat, now: int)
    requires ReservationsOk(db)
    ensures var r := C.ReserveForAttempt(db.reservations, db.limits, workspace, a, now);
            r.Some? ==> && db.reservations <= r.value
                        && C.Admitted(r.value, db.limits) && C.OnePerSource(r.value)
  {
    C.ReserveKeepsAdmitted(db.reservations, db.limits, C.ByAttempt(workspace, a, now));
  }

  /** What creating a draft writes: reservations and a task, and at most the row of the attempt. */
  lemma CreatedShape(db: Db, a: nat, now: int, conversation: Option<nat>)
    requires ReservationsOk(db)
    ensures var db' := Commit(db, CreateScheduled(db, a, now, conversation));
            var db1 := db.(reservations := db'.reservations, tasks := db'.tasks);
            && db.reservations <= db1.reservations && ReservationsOk(db1)
            && (|| db' == db1
                || (a in db.attempts && Scheduled(a) !in db.messages && Scheduled(a) in db'.messages
                    && RowOk(db'.messages[Scheduled(a)]) && db'.messages[Scheduled(a)].attempts == 0
                    && db' == WithRow(db1, Scheduled(a), db'.messages[Scheduled(a)])))
  {
    hide T.OpenTask, C.ReserveForAttempt, C.Admitted, C.OnePerSource;
    if a in db.attempts { ReserveForAttemptEffect(db, db.attempts[a].workspace, a, now); }
  }

  lemma CreateScheduledEffect(db: Db, a: nat, now: int, conversation: Option<nat>)
    requires RowsOk(db) && ReservationsOk(db)
    ensures Calm(db, Commit(db, CreateScheduled(db, a, now, conversation)))
  {
    hide CreateScheduled, Commit, ReservationsOk, Calm, RowsOk, RowOk;
    var db' := Commit(db, CreateScheduled(db, a, now, conversation));
    var db1 := db.(reservations := db'.reservations, tasks := db'.tasks);
    CreatedShape(db, a, now, conversation);
    RestCalm(db, db1);
    if db' != db1 {
      CalmIsGood(db, db1);
      NewRowCalm(db1, Scheduled(a), db'.messages[Scheduled(a)]);
      CalmTransitive(db, db1, db');
    }
  }

  lemma SmallWritersEffect(db: Db, a: nat, now: int)
    requires RowsOk(db) && ReservationsOk(db)
    ensures Calm(db, ApproveScheduled(db, a, now))
    ensures Calm(db, CancelScheduled(db, a))
  {
    hide Calm, RowsOk, ReservationsOk;
    var key := Scheduled(a);
    RestCalm(db, db);
    if key in db.messages {
      RowIsOk(db, key);
      if db.messages[key].state.ReviewReady? {
        RowCalm(db, key, db.messages[key].(state := Queued, nextAttemptAt := Some(now), approved := true));
      }
      RowCalm(db, key, CancelRow(db.messages[key]));
    }
  }

  // ---------- the invariant of every world ----------

  /** The decision holds the reservation its action needs. */
  predicate Reserved(db: Db, inbound: nat) {
    && inbound in db.decisions
    && var d := db.decisions[inbound];
       var r := C.FindReservation(db.reservations, C.ForDecision(inbound, d.conversation));
       r.Some? && r.value.slots == SlotsFor(d.action)
  }

  ghost predicate Logged(h: seq<Event>, k: Key) {
    Confirmed(k, true) in h || Confirmed(k, false) in h
  }

  /** No message is handed to the provider twice. */
  ghost predicate AtMostOnce(h: seq<Event>) {
    forall i, j :: 0 <= i < j < |h| && h[i].HandedOver? && h[j].HandedOver? ==> h[i].key != h[j].key
  }

  /** An acknowledgement follows the confirmation of its proposal. */
  ghost predicate AcksFollowProposals(h: seq<Event>) {
    forall j :: 0 <= j < |h| && h[j].HandedOver? && h[j].key.Auto? && h[j].key.kind.RedirectAck? ==>
      Logged(h[..j], Auto(ReferredProposal, h[j].key.inbound))
  }

  /** What the rows say about the provider was logged when it happened. */
  ghost predicate RowsMatchHistory(db: Db, h: seq<Event>) {
    && (forall k :: HandedOver(k) in h ==> Attempted(db, k))
    && (forall k :: SentIn(db, k) ==> Logged(h, k))
    && (forall i :: CompletedIn(db, i) ==>
          Confirmed(Auto(AutomaticReply, i), true) in h || Confirmed(Auto(RedirectAck, i), true) in h)
    && (forall i :: Attempted(db, Auto(RedirectAck, i)) ==> Logged(h, Auto(ReferredProposal, i)))
    && (forall i: nat :: Auto(RedirectAck, i) in db.messages ==> Confirmed(Auto(ReferredProposal, i), true) in h)
    && (forall i :: AwaitingAck(db, i) ==> Confirmed(Auto(ReferredProposal, i), true) in h)
  }

  ghost predicate WorkersOk(w: World) {
    && (forall p :: p in w.workers ==>
          w.workers[p].key in w.db.messages && (!w.workers[p].Failing? ==> Attempted(w.db, w.workers[p].key)))
    && (forall p :: p in w.workers && w.workers[p].Armed? ==> HandedOver(w.workers[p].key) !in w.history)
    && (forall p, q :: p in w.workers && q in w.workers && p != q && w.workers[p].Armed? && w.workers[q].Armed? ==>
          w.workers[p].key != w.workers[q].key)
  }

  /** Each message that left the queue is listed once, and is still marked as attempted. */
  ghost predicate StartedOk(db: Db, started: seq<Key>) {
    && (forall k :: k in started <==> Attempted(db, k))
    && (forall i, j :: 0 <= i < j < |started| ==> started[i] != started[j])
  }

  ghost predicate Backed(db: Db) {
    forall k :: Attempted(db, k) && k.Auto? ==> Reserved(db, k.inbound)
  }

  ghost predicate Inv(w: World) {
    && RowsOk(w.db) && ReservationsOk(w.db) && Backed(w.db)
    && RowsMatchHistory(w.db, w.history)
    && WorkersOk(w) && StartedOk(w.db, w.started)
    && AtMostOnce(w.history) && AcksFollowProposals(w.history)
  }

  /** A reservation found once is found for ever: the table only grows, with one row per source. */
  lemma FoundStays(rs: seq<C.Reservation>, rs': seq<C.Reservation>, s: C.Source)
    requires rs <= rs' && C.OnePerSource(rs') && C.FindReservation(rs, s).Some?
    ensures C.FindReservation(rs', s) == C.FindReservation(rs, s)
  {
    C.FoundIsInTable(rs, s);
    C.FoundIsInTable(rs', s);
    var j :| 0 <= j < |rs| && rs[j] == C.FindReservation(rs, s).value && C.IsFor(rs[j], s);
    assert rs'[j] == rs[j];
    var k :| 0 <= k < |rs'| && rs'[k] == C.FindReservation(rs', s).value && C.IsFor(rs'[k], s);
    assert C.IsFor(rs'[j], rs'[k].source) && C.IsFor(rs'[k], rs'[j].source);
    assert j == k;
  }

  lemma ReservedStays(db: Db, db': Db, i: nat)
    requires Extends(db, db') && ReservationsOk(db') && Reserved(db, i)
    ensures Reserved(db', i)
  {
    FoundStays(db.reservations, db'.reservations, C.ForDecision(i, db.decisions[i].conversation));
  }

  lemma CalmKeepsBacked(db: Db, db': Db)
    requires Calm(db, db') && Backed(db)
    ensures Backed(db')
  {
    forall k | Attempted(db', k) && k.Auto? ensures Reserved(db', k.inbound) {
      ReservedStays(db, db', k.inbound);
    }
  }

  lemma CalmKeepsInv(w: World, db: Db)
    requires Inv(w) && Calm(w.db, db)
    ensures Inv(w.(db := db))
  {
    hide RowsOk, ReservationsOk, Reserved, AwaitingAck, SentIn, CompletedIn, Attempted;
    CalmKeepsBacked(w.db, db);
  }

  lemma PrepareKeepsInv(w: World, p: nat, key: Key, now: int, checks: SendChecks)
    requires Inv(w) && p !in w.workers && Prepare(w.db, key, now, checks).Effect?
    ensures Inv(w.(db := Prepare(w.db, key, now, checks).db, workers := w.workers[p := Armed(key)],
                   started := w.started + [key]))
  {
    var db := Prepare(w.db, key, now, checks).db;
    PrepareEffect(w.db, key, now, checks);
    if key.Auto? { AllowedIsReserved(w.db, key.kind, key.inbound, now, checks); }
    hide Prepare, SendVerdict, ScheduledOutcome, ProposalSent, Reserved, KindAllowed, RateClear;
    StartKeepsInv(w, db, p, key, now);
  }

  lemma StartKeepsInv(w: World, db: Db, p: nat, key: Key, now: int)
    requires Inv(w) && p !in w.workers && StartsAttempt(w.db, db, key, now)
    requires key.Auto? ==> Reserved(w.db, key.inbound)
    requires key.Auto? && key.kind.RedirectAck? ==> ProposalSent(w.db, key.inbound)
    ensures Inv(World(db, w.workers[p := Armed(key)], w.history, w.started + [key]))
  {
    hide RowsOk, ReservationsOk, Backed, RowsMatchHistory, StartedOk, AtMostOnce, AcksFollowProposals, ProposalSent,
         Reserved, StartsAttempt, WorkersOk;
    StartKeepsRows(w.db, db, key, now);
    StartKeepsBacked(w.db, db, key, now);
    StartKeepsHistory(w.db, db, w.history, key, now);
    StartKeepsStarted(w.db, db, w.started, key, now);
    StartKeepsWorkers(w, db, p, key, now);
  }

  /** The new worker is the only one armed with its message. */
  lemma StartKeepsWorkers(w: World, db: Db, p: nat, key: Key, now: int)
    requires WorkersOk(w) && RowsOk(w.db) && p !in w.workers && StartsAttempt(w.db, db, key, now)
    requires HandedOver(key) !in w.history
    ensures WorkersOk(World(db, w.workers[p := Armed(key)], w.history, w.started + [key]))
  {
    AttemptedAfterStart(w.db, db, key, now);
    hide Attempted, RowsOk, StartsAttempt;
  }

  lemma AttemptedAfterStart(db: Db, db': Db, key: Key, now: int)
    requires RowsOk(db) && StartsAttempt(db, db', key, now)
    ensures !Attempted(db, key) && Attempted(db', key)
    ensures forall k :: k != key ==> (Attempted(db', k) <==> Attempted(db, k))
    ensures forall k :: k in db.messages ==> k in db'.messages
  {
  }

  lemma StartKeepsRows(db: Db, db': Db, key: Key, now: int)
    requires StartsAttempt(db, db', key, now) && RowsOk(db) && ReservationsOk(db)
    ensures Extends(db, db') && RowsOk(db') && ReservationsOk(db')
    ensures db.messages[key].attempts == 0
  {
    hide C.Admitted, C.OnePerSource, KindAllowed, RowOk;
    SendingRowOk(db.messages[key], now);
    assert RowOk(db.messages[key]) && db.messages[key].attempts == 0 by { QueuedIsUntried(db, key); }
  }

  lemma SendingRowOk(m: Message, now: int)
    ensures RowOk(m) && m.state.Queued? ==> RowOk(SendingRow(m, now))
  {
  }

  lemma QueuedIsUntried(db: Db, key: Key)
    requires RowsOk(db) && key in db.messages && db.messages[key].state.Queued?
    ensures RowOk(db.messages[key]) && db.messages[key].attempts == 0
  {
  }

  lemma StartKeepsStarted(db: Db, db': Db, started: seq<Key>, key: Key, now: int)
    requires StartsAttempt(db, db', key, now) && RowsOk(db) && StartedOk(db, started)
    ensures StartedOk(db', started + [key])
  {
    assert !Attempted(db, key) && Attempted(db', key);
    assert forall k :: k != key ==> (Attempted(db', k) <==> Attempted(db, k));
    hide RowsOk, Attempted;
  }

  lemma StartKeepsBacked(db: Db, db': Db, key: Key, now: int)
    requires StartsAttempt(db, db', key, now) && RowsOk(db) && ReservationsOk(db) && Backed(db)
    requires key.Auto? ==> Reserved(db, key.inbound)
    ensures Backed(db')
  {
    StartKeepsRows(db, db', key, now);
    forall k | Attempted(db', k) && k.Auto? ensures Reserved(db', k.inbound) {
      ReservedStays(db, db', k.inbound);
    }
  }

  /** What an allowed automatic send found in the database. */
  lemma AllowedIsReserved(db: Db, kind: Kind, i: nat, now: int, checks: SendChecks)
    requires SendVerdict(db, kind, i, now, checks).Allows?
    ensures Reserved(db, i) && KindAllowed(db.decisions[i].action, kind)
    ensures kind.RedirectAck? ==> ProposalSent(db, i)
    ensures T.ReplyGateClear(db.tasks, db.decisions[i].contact, db.decisions[i].conversation)
    ensures RateClear(db, Auto(kind, i), db.decisions[i].workspace, Some(db.decisions[i].conversation), now)
  {
    hide RateClear, T.ReplyGateClear;
  }

  /** What the history is compared with hardly changes when a message leaves. */
  lemma StartKeepsFacts(db: Db, db': Db, key: Key, now: int)
    requires StartsAttempt(db, db', key, now) && RowsOk(db)
    ensures forall i :: AwaitingAck(db', i) ==> AwaitingAck(db, i)
    ensures forall i :: CompletedIn(db', i) ==> CompletedIn(db, i)
    ensures forall k :: SentIn(db', k) ==> SentIn(db, k)
    ensures forall k :: k in db'.messages <==> k in db.messages
  {
    hide RowOk;
  }

  lemma StartKeepsHistory(db: Db, db': Db, h: seq<Event>, key: Key, now: int)
    requires StartsAttempt(db, db', key, now) && RowsOk(db) && RowsMatchHistory(db, h)
    requires key.Auto? && key.kind.RedirectAck? ==> ProposalSent(db, key.inbound)
    ensures RowsMatchHistory(db', h)
    ensures HandedOver(key) !in h
  {
    StartKeepsFacts(db, db', key, now);
    AttemptedAfterStart(db, db', key, now);
    if key.Auto? && key.kind.RedirectAck? { assert SentIn(db, Auto(ReferredProposal, key.inbound)); }
    hide RowsOk, AwaitingAck, CompletedIn, SentIn, StartsAttempt, Attempted;
  }

  lemma ConfirmKeepsInv(w: World, key: Key, now: int, thread: string, connected: bool)
    requires Inv(w)
    ensures Inv(ConfirmStep(w, key, now, thread, connected))
  {
    var w' := ConfirmStep(w, key, now, thread, connected);
    hide Inv, Confirm, Tied, InFlight, RowsOk;
    InvRows(w);
    if w' != w {
      ConfirmEffect(w.db, key, now, thread, connected);
      ConfirmedKeepsInv(w, w'.db, key, now, Tied(w.db, key, thread, connected));
    }
  }

  lemma ConfirmedKeepsInv(w: World, db: Db, key: Key, now: int, tied: bool)
    requires Inv(w) && ConfirmsRow(w.db, db, key, now, tied) && InFlight(w.db.messages[key].state)
    ensures Inv(w.(db := db, history := w.history + [Confirmed(key, tied)]))
  {
    hide RowsOk, ReservationsOk, Backed, RowsMatchHistory, StartedOk, AtMostOnce, AcksFollowProposals, ConfirmsRow,
         WorkersOk;
    ConfirmKeepsRows(w.db, db, key, now, tied);
    ConfirmKeepsHistory(w.db, db, w.history, key, now, tied);
    AppendConfirmed(w.history, key, tied);
    AttemptedAfterConfirm(w.db, db, key, now, tied);
    SameAttempts(w, db, w.history + [Confirmed(key, tied)]);
  }

  lemma AttemptedAfterConfirm(db: Db, db': Db, key: Key, now: int, tied: bool)
    requires ConfirmsRow(db, db', key, now, tied)
    ensures forall k :: Attempted(db', k) <==> Attempted(db, k)
    ensures forall k :: k in db.messages ==> k in db'.messages
  {
  }

  /** Workers and the list of started messages only look at the attempts of rows and at hand-offs. */
  lemma SameAttempts(w: World, db: Db, h: seq<Event>)
    requires WorkersOk(w) && StartedOk(w.db, w.started)
    requires forall k :: Attempted(db, k) <==> Attempted(w.db, k)
    requires forall k :: k in w.db.messages ==> k in db.messages
    requires forall k :: HandedOver(k) in h <==> HandedOver(k) in w.history
    ensures WorkersOk(w.(db := db, history := h)) && StartedOk(db, w.started)
  {
    hide Attempted;
  }

  lemma ConfirmKeepsRows(db: Db, db': Db, key: Key, now: int, tied: bool)
    requires RowsOk(db) && ReservationsOk(db) && Backed(db)
    requires ConfirmsRow(db, db', key, now, tied) && InFlight(db.messages[key].state)
    ensures RowsOk(db') && ReservationsOk(db') && Backed(db')
  {
    hide C.Admitted, C.OnePerSource;
  }

  lemma ConfirmKeepsHistory(db: Db, db': Db, h: seq<Event>, key: Key, now: int, tied: bool)
    requires RowsOk(db) && RowsMatchHistory(db, h)
    requires ConfirmsRow(db, db', key, now, tied) && InFlight(db.messages[key].state)
    ensures RowsMatchHistory(db', h + [Confirmed(key, tied)])
  {
    var h' := h + [Confirmed(key, tied)];
    assert Confirmed(key, tied) in h';
    assert forall e :: e in h ==> e in h';
    assert forall k :: Attempted(db', k) <==> Attempted(db, k);
    forall i | AwaitingAck(db', i) ensures Confirmed(Auto(ReferredProposal, i), true) in h' {
      if key == Auto(ReferredProposal, i) {
        assert tied;
      } else {
        assert db'.messages[Auto(ReferredProposal, i)] == db.messages[Auto(ReferredProposal, i)];
        assert AwaitingAck(db, i);
      }
    }
    forall i | CompletedIn(db', i)
      ensures Confirmed(Auto(AutomaticReply, i), true) in h' || Confirmed(Auto(RedirectAck, i), true) in h'
    {
      if !CompletedIn(db, i) { assert key.Auto? && key.inbound == i && tied && !key.kind.ReferredProposal?; }
    }
    forall k | SentIn(db', k) ensures Logged(h', k) {
      if k != key { assert SentIn(db, k); }
    }
  }

  lemma AppendConfirmed(h: seq<Event>, key: Key, tied: bool)
    requires AtMostOnce(h) && AcksFollowProposals(h)
    ensures AtMostOnce(h + [Confirmed(key, tied)]) && AcksFollowProposals(h + [Confirmed(key, tied)])
  {
    var h' := h + [Confirmed(key, tied)];
    forall j | 0 <= j < |h'| && h'[j].HandedOver? && h'[j].key.Auto? && h'[j].key.kind.RedirectAck?
      ensures Logged(h'[..j], Auto(ReferredProposal, h'[j].key.inbound))
    {
      assert h'[..j] == h[..j];
    }
  }

  lemma AppendHandOver(db: Db, h: seq<Event>, key: Key)
    requires RowsMatchHistory(db, h) && AtMostOnce(h) && AcksFollowProposals(h)
    requires HandedOver(key) !in h && Attempted(db, key)
    ensures var h' := h + [HandedOver(key)];
            RowsMatchHistory(db, h') && AtMostOnce(h') && AcksFollowProposals(h')
  {
    hide AwaitingAck, SentIn, CompletedIn, Attempted;
    var h' := h + [HandedOver(key)];
    forall j | 0 <= j < |h'| && h'[j].HandedOver? && h'[j].key.Auto? && h'[j].key.kind.RedirectAck?
      ensures Logged(h'[..j], Auto(ReferredProposal, h'[j].key.inbound))
    {
      assert h'[..j] == h[..j] && h[..|h|] == h;
    }
    forall i, j | 0 <= i < j < |h'| && h'[i].HandedOver? && h'[j].HandedOver? ensures h'[i].key != h'[j].key {
      if j == |h| { assert h'[i] in h; }
    }
  }

  lemma HandOverKeepsInv(w: World, p: nat)
    requires Inv(w) && p in w.workers && w.workers[p].Armed?
    ensures var key := w.workers[p].key;
            Inv(w.(workers := w.workers[p := Calling(key)], history := w.history + [HandedOver(key)]))
  {
    hide RowsOk, ReservationsOk, Backed, StartedOk, RowsMatchHistory, AtMostOnce, AcksFollowProposals, WorkersOk;
    ArmedIsFresh(w, p);
    AppendHandOver(w.db, w.history, w.workers[p].key);
  }

  lemma ArmedIsFresh(w: World, p: nat)
    requires WorkersOk(w) && p in w.workers && w.workers[p].Armed?
    ensures Attempted(w.db, w.workers[p].key) && HandedOver(w.workers[p].key) !in w.history
    ensures var key := w.workers[p].key;
            WorkersOk(w.(workers := w.workers[p := Calling(key)], history := w.history + [HandedOver(key)]))
  {
    hide Attempted;
  }

  lemma FewerWorkers(w: World, p: nat)
    requires Inv(w)
    ensures Inv(w.(workers := w.workers - {p}))
  {
    hide RowsOk, ReservationsOk, Backed, StartedOk, RowsMatchHistory, AtMostOnce, AcksFollowProposals;
  }

  lemma MoreWorkers(w: World, p: nat, worker: Worker)
    requires Inv(w) && !worker.Armed? && p !in w.workers
    requires worker.key in w.db.messages && (!worker.Failing? ==> Attempted(w.db, worker.key))
    ensures Inv(w.(workers := w.workers[p := worker]))
  {
    hide RowsOk, ReservationsOk, Backed, StartedOk, RowsMatchHistory, AtMostOnce, AcksFollowProposals;
  }

  lemma AnswerKeepsInv(w: World, key: Key, now: int, answer: Answer)
    requires Inv(w) && Attempted(w.db, key)
    ensures Inv(AnswerStep(w, key, now, answer))
  {
    hide RecordError, ConfirmStep, Inv;
    assert RowsOk(w.db) && ReservationsOk(w.db) by { InvRows(w); }
    match answer
    case Accepted(thread, connected) => ConfirmKeepsInv(w, key, now, thread, connected);
    case Ambiguous =>
      RecordErrorEffect(w.db, key, now, true);
      CalmKeepsInv(w, Commit(w.db, RecordError(w.db, key, now, true)));
    case _ =>
      RecordErrorEffect(w.db, key, now, false);
      CalmKeepsInv(w, Commit(w.db, RecordError(w.db, key, now, false)));
  }

  lemma InvRows(w: World)
    requires Inv(w)
    ensures RowsOk(w.db) && ReservationsOk(w.db)
    ensures forall p :: p in w.workers ==> w.workers[p].key in w.db.messages
    ensures forall p :: p in w.workers && !w.workers[p].Failing? ==> Attempted(w.db, w.workers[p].key)
    ensures forall k :: k in w.db.messages && InFlight(w.db.messages[k].state) ==> Attempted(w.db, k)
  {
    hide RowsMatchHistory, Backed, AtMostOnce, AcksFollowProposals, C.Admitted, C.OnePerSource;
  }

  lemma DecideIsCalm(db: Db, i: nat, d: Decision)
    requires RowsOk(db) && ReservationsOk(db) && i !in db.decisions && FreshDecision(d)
    ensures Calm(db, db.(decisions := db.decisions[i := d]))
  {
    hide C.Admitted, C.OnePerSource, RowOk;
  }

  lemma PlanIsCalm(db: Db, a: nat, info: Attempt)
    requires RowsOk(db) && ReservationsOk(db) && a !in db.attempts
    ensures Calm(db, db.(attempts := db.attempts[a := info]))
  {
    hide C.Admitted, C.OnePerSource, RowOk;
  }

  lemma RecordingKeepsInv(w: World, op: Op)
    requires Inv(w) && Enabled(w, op) && (op.Decide? || op.PlanAttempt? || op.DoTask? || op.DoSetMode?)
    ensures Inv(Step(w, op))
  {
    InvRows(w);
    hide Inv, Calm, RowsOk, ReservationsOk, T.ApplyTask, FreshDecision;
    match op
    case Decide(i, d) =>
      DecideIsCalm(w.db, i, d);
      CalmKeepsInv(w, Step(w, op).db);
    case PlanAttempt(a, info) =>
      PlanIsCalm(w.db, a, info);
      CalmKeepsInv(w, Step(w, op).db);
    case DoTask(t) =>
      RestCalm(w.db, Step(w, op).db);
      CalmKeepsInv(w, Step(w, op).db);
    case DoSetMode(t, _, _) =>
      RestCalm(w.db, Step(w, op).db);
      CalmKeepsInv(w, Step(w, op).db);
  }

  /** Every transaction, provider answer and crash keeps the invariant. */
  lemma StepKeepsInv(w: World, op: Op)
    requires Inv(w) && Enabled(w, op)
    ensures Inv(Step(w, op))
  {
    hide Inv, Prepare, AuthorizeReply, AuthorizeAck, CreateScheduled, ManualReplyImported, ApproveScheduled,
         CancelScheduled, AnswerStep, ErrorStep, T.ApplyTask, Commit;
    match op
    case Decide(_, _) => RecordingKeepsInv(w, op);
    case PlanAttempt(_, _) => RecordingKeepsInv(w, op);
    case DoTask(_) => RecordingKeepsInv(w, op);
    case DoSetMode(_, _, _) => RecordingKeepsInv(w, op);
    case DoAuthorizeReply(i, now, checks) => WritersKeepInv(w, i, now, checks, 0, None);
    case DoAuthorizeAck(i, now, policy, address) => AckKeepsInv(w, i, now, policy, address);
    case DoCreateScheduled(a, now, c) => WritersKeepInv(w, 0, now, AuthorizeChecks(true, true, true, true, ""), a, c);
    case DoApproveScheduled(a, now) => SmallWritersKeepInv(w, 0, a, now);
    case DoCancelScheduled(a) => SmallWritersKeepInv(w, 0, a, 0);
    case DoManualReply(i) => SmallWritersKeepInv(w, i, 0, 0);
    case DoCancelCampaign(inbounds) => CampaignKeepsInv(w, inbounds);
    case DoPrepare(p, k, now, gate) => PreparingKeepsInv(w, p, k, now, gate);
    case PrepareFails(p, k) => MoreWorkers(w, p, Failing(k));
    case RecordFailure(p, now) => FailureKeepsInv(w, p, now);
    case HandOver(p) => HandOverKeepsInv(w, p);
    case EndSend(p, now, answer) => EndKeepsInv(w, p, now, answer);
    case StartLookup(p, k) => LookupKeepsInv(w, p, k);
    case EndLookup(p, now, answer) => EndKeepsInv(w, p, now, answer);
    case Crash(p) => FewerWorkers(w, p);
  }

  lemma WritersKeepInv(w: World, i: nat, now: int, checks: AuthorizeChecks, a: nat, c: Option<nat>)
    requires Inv(w)
    ensures Inv(w.(db := Commit(w.db, AuthorizeReply(w.db, i, now, checks))))
    ensures Inv(w.(db := Commit(w.db, CreateScheduled(w.db, a, now, c))))
  {
    InvRows(w);
    hide Inv, AuthorizeReply, CreateScheduled, Commit, RowsOk, ReservationsOk, Calm;
    AuthorizeReplyEffect(w.db, i, now, checks);
    CalmKeepsInv(w, Commit(w.db, AuthorizeReply(w.db, i, now, checks)));
    CreateScheduledEffect(w.db, a, now, c);
    CalmKeepsInv(w, Commit(w.db, CreateScheduled(w.db, a, now, c)));
  }

  lemma SmallWritersKeepInv(w: World, i: nat, a: nat, now: int)
    requires Inv(w)
    ensures Inv(w.(db := ApproveScheduled(w.db, a, now))) && Inv(w.(db := CancelScheduled(w.db, a)))
    ensures Inv(w.(db := ManualReplyImported(w.db, i)))
  {
    InvRows(w);
    hide Inv, ApproveScheduled, CancelScheduled, ManualReplyImported, RowsOk, ReservationsOk, Calm;
    SmallWritersEffect(w.db, a, now);
    CalmKeepsInv(w, ApproveScheduled(w.db, a, now));
    CalmKeepsInv(w, CancelScheduled(w.db, a));
    ManualReplyEffect(w.db, i);
    CalmKeepsInv(w, ManualReplyImported(w.db, i));
  }

  lemma CampaignKeepsInv(w: World, inbounds: set<nat>)
    requires Inv(w)
    ensures Inv(w.(db := CancelCampaign(w.db, inbounds)))
  {
    InvRows(w);
    hide Inv, CancelCampaign, RowsOk, ReservationsOk, Calm;
    CancelCampaignEffect(w.db, inbounds);
    CalmKeepsInv(w, CancelCampaign(w.db, inbounds));
  }

  lemma PreparingKeepsInv(w: World, p: nat, k: Key, now: int, gate: SendChecks)
    requires Inv(w) && p !in w.workers
    ensures match Prepare(w.db, k, now, gate)
            case Raised => true
            case Stopped(db) => Inv(w.(db := db))
            case Effect(db) =>
              Inv(w.(db := db, workers := w.workers[p := Armed(k)], started := w.started + [k]))
  {
    InvRows(w);
    PrepareEffect(w.db, k, now, gate);
    hide Inv, Prepare, RowsOk, ReservationsOk, Calm, StartsAttempt, SendVerdict, ScheduledOutcome;
    match Prepare(w.db, k, now, gate)
    case Raised =>
    case Stopped(db) => CalmKeepsInv(w, db);
    case Effect(_) => PrepareKeepsInv(w, p, k, now, gate);
  }

  lemma LookupKeepsInv(w: World, p: nat, k: Key)
    requires Inv(w) && p !in w.workers && k in w.db.messages && InFlight(w.db.messages[k].state)
    ensures Inv(w.(workers := w.workers[p := LookingUp(k)]))
  {
    InvRows(w);
    hide Inv;
    MoreWorkers(w, p, LookingUp(k));
  }

  lemma EndKeepsInv(w: World, p: nat, now: int, answer: Answer)
    requires Inv(w) && p in w.workers && !w.workers[p].Failing?
    ensures Inv(AnswerStep(w, w.workers[p].key, now, answer).(workers := w.workers - {p}))
  {
    InvRows(w);
    hide Inv, AnswerStep, RowsOk, ReservationsOk;
    AnswerKeepsInv(w, w.workers[p].key, now, answer);
    AnswerKeepsWorkers(w, w.workers[p].key, now, answer);
    FewerWorkers(AnswerStep(w, w.workers[p].key, now, answer), p);
  }

  lemma FailureKeepsInv(w: World, p: nat, now: int)
    requires Inv(w) && p in w.workers
    ensures Inv(ErrorStep(w, w.workers[p].key, now, false).(workers := w.workers - {p}))
  {
    InvRows(w);
    hide Inv, RecordError, RowsOk, ReservationsOk, Calm;
    RecordErrorEffect(w.db, w.workers[p].key, now, false);
    var w1 := ErrorStep(w, w.workers[p].key, now, false);
    CalmKeepsInv(w, w1.db);
    FewerWorkers(w1, p);
  }

  lemma AnswerKeepsWorkers(w: World, key: Key, now: int, answer: Answer)
    ensures AnswerStep(w, key, now, answer).workers == w.workers
  {
    hide Confirm, RecordError;
  }

  lemma AckKeepsInv(w: World, i: nat, now: int, policy: bool, address: string)
    requires Inv(w)
    ensures Inv(w.(db := Commit(w.db, AuthorizeAck(w.db, i, now, policy, address))))
  {
    InvRows(w);
    AuthorizeAckEffect(w.db, i, now, policy, address);
    hide AuthorizeAck, AckVerdict, Calm, AwaitingAck, Inv, RowsOk, ReservationsOk;
    var db' := Commit(w.db, AuthorizeAck(w.db, i, now, policy, address));
    if Calm(w.db, db') {
      CalmKeepsInv(w, db');
    } else {
      NewAckKeepsInv(w, i, now);
    }
  }

  lemma NewAckRows(db: Db, i: nat, now: int)
    requires RowsOk(db) && ReservationsOk(db) && AwaitingAck(db, i)
    ensures var db' := WithRow(db, Auto(RedirectAck, i), QueuedMessage(now));
            && RowsOk(db') && ReservationsOk(db')
            && (forall k :: Attempted(db', k) <==> Attempted(db, k))
            && (forall k :: SentIn(db', k) <==> SentIn(db, k))
            && (forall j :: CompletedIn(db', j) <==> CompletedIn(db, j))
            && (forall j :: AwaitingAck(db', j) ==> AwaitingAck(db, j))
  {
    hide C.Admitted, C.OnePerSource;
  }

  lemma NewAckKeepsInv(w: World, i: nat, now: int)
    requires Inv(w) && AwaitingAck(w.db, i)
    ensures Inv(w.(db := WithRow(w.db, Auto(RedirectAck, i), QueuedMessage(now))))
  {
    var db := WithRow(w.db, Auto(RedirectAck, i), QueuedMessage(now));
    hide RowsOk, ReservationsOk, AtMostOnce, AcksFollowProposals, AwaitingAck, Attempted, SentIn, CompletedIn, Reserved,
         WorkersOk, StartedOk;
    NewAckRows(w.db, i, now);
    assert forall j :: Reserved(db, j) <==> Reserved(w.db, j) by { SameReserved(w.db, db); }
    SameAttempts(w, db, w.history);
  }

  lemma SameReserved(db: Db, db': Db)
    requires db'.decisions == db.decisions && db'.reservations == db.reservations
    ensures forall j :: Reserved(db', j) <==> Reserved(db, j)
  {
  }

  lemma InitialInv(w: World)
    requires Initial(w)
    ensures Inv(w)
  {
  }

  lemma {:induction false} RunKeepsInv(w: World, ops: seq<Op>)
    requires Inv(w) && Runs(w, ops)
    ensures Inv(Final(w, ops))
    decreases |ops|
  {
    hide Inv, Enabled, Step;
    if ops != [] {
      StepKeepsInv(w, ops[0]);
      RunKeepsInv(Step(w, ops[0]), ops[1..]);
    }
  }
}
