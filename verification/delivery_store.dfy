/**
 The delivery transactions in the form the service gives them: rows updated in place, early returns, and a
 rollback when something raises. Each method is proved to leave the tables as its specification says.
 */
module DeliveryStore {
  import opened Common
  import opened Delivery
  import opened DeliveryRuns
  import T = HumanTasks
  import C = Capacity
  import A = Admission
  import Authorizing
  import Departing

  /** At most the row `key` was added or rewritten. */
  ghost predicate OnlyRow(before: map<Key, Message>, after: map<Key, Message>, key: Key) {
    forall k :: k != key ==> (k in after <==> k in before) && (k in before ==> after[k] == before[k])
  }

  /** At most the row `key` was added, waiting to leave; no row was rewritten. */
  ghost predicate OnlyAdds(before: map<Key, Message>, after: map<Key, Message>, key: Key) {
    OnlyRow(before, after, key) && (key in before ==> key in after && after[key] == before[key])
    && (key in after && key !in before ==> after[key].state.Queued? && after[key].attempts == 0)
  }

  /** Authorising adds at most the first message of an eligible decision. */
  ghost predicate AddsFirst(before: Db, after: Db, inbound: nat) {
    || after.messages == before.messages
    || (&& inbound in before.decisions && before.decisions[inbound].state.AutoEligible?
        && OnlyAdds(before.messages, after.messages, Auto(FirstKind(before.decisions[inbound].action), inbound)))
  }

  lemma AuthorizeAddsFirst(db: Db, inbound: nat, now: int, checks: AuthorizeChecks)
    ensures AddsFirst(db, Commit(db, AuthorizeReply(db, inbound, now, checks)), inbound)
  {
    hide T.OpenTask, C.ReserveForDecision, T.ReplyGateClear, PolicyClear;
  }

  /** A confirmation sends at most its own message, and only out of flight; no reservation changes. */
  ghost predicate SendsAtMost(before: Db, after: Db, key: Key, now: int) {
    && after.reservations == before.reservations
    && (|| after.messages == before.messages
        || (&& key in before.messages && InFlight(before.messages[key].state)
            && after.messages == before.messages[key := SentRow(before.messages[key], now)]))
  }

  /** A preparation touches at most its own row and no reservation, and never a sent one; the row comes into flight
      exactly when the worker gets an effect, and only off the queue. */
  ghost predicate LeavesAtMost(before: Db, after: Db, key: Key, effect: bool) {
    && OnlyRow(before.messages, after.messages, key) && after.messages.Keys == before.messages.Keys
    && after.reservations == before.reservations
    && (key in before.messages && before.messages[key].state.Sent? ==> after.messages == before.messages)
    && (effect <==> key in before.messages && before.messages[key].state.Queued? && InFlight(after.messages[key].state))
  }

  lemma RejectFailsRow(db: Db, inbound: nat, reason: string, key: Key)
    requires inbound in db.decisions && key in db.messages && db.messages[key].state.Queued?
    ensures LeavesAtMost(db, Commit(db, Reject(db, inbound, reason, Some(key), true)), key, false)
  {
    hide T.OpenTask;
  }

  lemma PrepareLeavesAtMost(db: Db, key: Key, now: int, checks: SendChecks)
    ensures match Prepare(db, key, now, checks)
            case Raised => LeavesAtMost(db, db, key, false)
            case Stopped(db') => LeavesAtMost(db, db', key, false)
            case Effect(db') => LeavesAtMost(db, db', key, true)
  {
    hide Reject, AutomaticClear, ScheduledClear, RateClear;
    if key in db.messages && db.messages[key].state.Queued? && key.Auto? && key.inbound in db.decisions {
      var v := SendVerdict(db, key.kind, key.inbound, now, checks);
      if v.Rejects? { RejectFailsRow(db, key.inbound, v.reason, key); }
    }
  }

  lemma RejectSparesSent(db: Db, inbound: nat, reason: string, message: Option<Key>)
    requires inbound in db.decisions
    requires message.Some? ==> message.value in db.messages && db.messages[message.value].state.Sent?
    ensures var db' := Commit(db, Reject(db, inbound, reason, message, true));
            db'.messages == db.messages && db'.reservations == db.reservations
  {
    hide T.OpenTask;
  }

  lemma SettlingIsAutomatic(sent: Db, kind: Kind, inbound: nat, thread: string, connected: bool)
    requires Auto(kind, inbound) in sent.messages && sent.messages[Auto(kind, inbound)].state.Sent?
    ensures var r := ConfirmAutomatic(sent, kind, inbound, thread, connected);
            r.Some? ==> r.value.messages == sent.messages && r.value.reservations == sent.reservations
  {
    hide T.OpenTask, TieThread, ProposalThreads, Reject;
    if inbound in sent.decisions {
      var executing := sent.(decisions := sent.decisions[inbound := sent.decisions[inbound].(state := Executing)]);
      RejectSparesSent(executing, inbound, "GMAIL_THREAD_OWNERSHIP_CONFLICT", None);
      RejectSparesSent(sent, inbound, "GMAIL_REPLY_THREAD_MISMATCH", Some(Auto(kind, inbound)));
    }
  }

  lemma ConfirmSendsAtMost(db: Db, key: Key, now: int, thread: string, connected: bool)
    ensures SendsAtMost(db, Commit(db, Confirm(db, key, now, thread, connected)), key, now)
  {
    hide ConfirmAutomatic, ConfirmScheduled;
    if key in db.messages {
      var sent := WithRow(db, key, SentRow(db.messages[key], now));
      match key
      case Auto(kind, inbound) => SettlingIsAutomatic(sent, kind, inbound, thread, connected);
      case Scheduled(attempt) => SettlingIsScheduled(sent, attempt, thread, connected);
    }
  }

  lemma SettlingIsScheduled(sent: Db, attempt: nat, thread: string, connected: bool)
    ensures var r := ConfirmScheduled(sent, attempt, thread, connected);
            r.Some? ==> r.value.messages == sent.messages && r.value.reservations == sent.reservations
  {
    hide T.OpenTask, TieThread;
  }

  /** What holds of the tables in every run (`Reachable.TablesAreSound`). */
  ghost predicate Sound(db: Db) {
    T.Consistent(db.tasks) && A.Unique(db.reservations)
  }

  predicate MayLeave(db: Db, key: Key, now: int, checks: SendChecks) {
    match key
    case Auto(kind, inbound) => Departing.AutomaticMayLeave(db, kind, inbound, now, checks)
    case Scheduled(attempt) => Departing.ScheduledMayLeave(db, attempt, now, checks)
  }

  lemma LeavesExactly(db: Db, key: Key, now: int, checks: SendChecks)
    ensures Sound(db) ==> (Prepare(db, key, now, checks).Effect? <==> MayLeave(db, key, now, checks))
  {
    hide Prepare, Departing.AutomaticMayLeave, Departing.ScheduledMayLeave, T.Consistent, A.Unique;
    if Sound(db) {
      match key
      case Auto(kind, inbound) => Departing.AutomaticLeavesExactly(db, kind, inbound, now, checks);
      case Scheduled(attempt) => Departing.ScheduledLeavesExactly(db, attempt, now, checks);
    }
  }

  /** Over sound tables a message is added exactly when the decision gets through. */
  ghost predicate AddsExactly(db: Db, db': Db, inbound: nat, now: int, checks: AuthorizeChecks) {
    Sound(db) ==> (db'.messages != db.messages <==> Authorizing.GetsThrough(db, inbound, now, checks))
  }

  lemma AuthorizeAddsExactly(db: Db, inbound: nat, now: int, checks: AuthorizeChecks)
    ensures AddsExactly(db, Commit(db, AuthorizeReply(db, inbound, now, checks)), inbound, now, checks)
  {
    hide AuthorizeReply, Authorizing.GetsThrough, T.Consistent, A.Unique;
    if Sound(db) { Authorizing.LetsThroughExactly(db, inbound, now, checks); }
  }

  class AutomationStore {
    var decisions: map<nat, Decision>
    var messages: map<Key, Message>
    var attempts: map<nat, Attempt>
    var automatic: set<nat>
    var threads: map<string, nat>
    var reservations: seq<C.Reservation>
    var tasks: T.TaskStore
    const limits: C.Limits

    function Tables(): Db
      reads this
    {
      Db(decisions, messages, attempts, automatic, threads, reservations, tasks, limits)
    }

    constructor (tasks: T.TaskStore, limits: C.Limits)
      ensures Tables() == Db(map[], map[], map[], {}, map[], [], tasks, limits)
    {
      decisions, messages, attempts, automatic, threads, reservations := map[], map[], map[], {}, map[], [];
      this.tasks, this.limits := tasks, limits;
    }

    /** Undoes the transaction that started from `saved`. */
    method Rollback(saved: Db)
      requires saved.limits == limits
      modifies this
      ensures Tables() == saved
    {
      decisions, messages, attempts, automatic := saved.decisions, saved.messages, saved.attempts, saved.automatic;
      threads, reservations, tasks := saved.threads, saved.reservations, saved.tasks;
    }

    method RejectDecisionLocked(inbound: nat, reason: string, message: Option<Key>, failed: bool) returns (ok: bool)
      requires inbound in decisions
      modifies this
      ensures ok == Reject(old(Tables()), inbound, reason, message, failed).Some?
      ensures Tables() == Commit(old(Tables()), Reject(old(Tables()), inbound, reason, message, failed))
      ensures messages.Keys == old(messages).Keys && reservations == old(reservations)
      ensures message.None? ==> messages == old(messages)
      ensures forall k :: k in old(messages) && (Some(k) != message || old(messages)[k].state.Sent?) ==>
                messages[k] == old(messages)[k]
    {
      var d := decisions[inbound];
      var task := T.OpenTask(tasks, ReviewRequest(d, inbound, reason));
      if task.None? { return false; }
      decisions := decisions[inbound := d.(state := if failed then HumanRequired else RejectedPolicy)];
      if message.Some? && message.value in messages && !messages[message.value].state.Sent? {
        messages := messages[message.value := messages[message.value].(state := SendFailed, nextAttemptAt := None)];
      }
      tasks := task.value;
      ok := true;
    }

    /** The reply, or the proposal of a redirect (`_authorize_redirect_proposal_locked`), once capacity is reserved. */
    method QueueFirstMessage(inbound: nat, now: int, address: string) returns (ok: bool)
      requires inbound in decisions
      modifies this
      ensures var before := old(Tables());
              var d := before.decisions[inbound];
              if address == "" then
                ok && Tables() == before.(decisions := before.decisions[inbound := d.(state := Authorized)],
                                          messages := before.messages[Auto(FirstKind(d.action), inbound)
                                                                      := QueuedMessage(now)])
              else
                ok == Reject(before, inbound, address, None, false).Some?
                && Tables() == Commit(before, Reject(before, inbound, address, None, false))
    {
      if address != "" {
        ok := RejectDecisionLocked(inbound, address, None, false);
        return;
      }
      var d := decisions[inbound];
      messages := messages[Auto(FirstKind(d.action), inbound) := QueuedMessage(now)];
      decisions := decisions[inbound := d.(state := Authorized)];
      ok := true;
    }

    method AuthorizeReplyDecision(inbound: nat, now: int, checks: AuthorizeChecks) returns (ok: bool)
      modifies this
      ensures ok == AuthorizeReply(old(Tables()), inbound, now, checks).Some?
      ensures Tables() == Commit(old(Tables()), AuthorizeReply(old(Tables()), inbound, now, checks))
      ensures AddsFirst(old(Tables()), Tables(), inbound)
      ensures AddsExactly(old(Tables()), Tables(), inbound, now, checks)
    {
      AuthorizeAddsExactly(Tables(), inbound, now, checks);
      hide AddsExactly;
      hide T.OpenTask, C.ReserveForDecision, T.ReplyGateClear, Reject, PolicyClear, HasAutomatic, AddsFirst;
      var saved := Tables();
      AuthorizeAddsFirst(saved, inbound, now, checks);
      if inbound !in decisions { return false; }
      var d := decisions[inbound];
      if d.state !in {Pending, AutoEligible, Authorized, Executing} { return true; }
      if HasAutomatic(Tables(), inbound) { return true; }
      if !d.state.AutoEligible? { return true; }
      if checks.manualReply {
        ok := RejectDecisionLocked(inbound, "MANUAL_REPLY_ALREADY_AUTHORIZED", None, true);
        return;
      }
      if !T.ReplyGateClear(tasks, d.contact, d.conversation) {
        ok := RejectDecisionLocked(inbound, "HUMAN_TASK_OPEN", None, false);
        return;
      }
      if !PolicyClear(d, checks.policy) {
        ok := RejectDecisionLocked(inbound, "POLICY_RECHECK_FAILED", None, false);
        return;
      }
      if !checks.liveOrigin {
        ok := RejectDecisionLocked(inbound, "NOT_LIVE_ORIGIN", None, false);
        return;
      }
      if !checks.gmailReady {
        ok := RejectDecisionLocked(inbound, "GMAIL_NOT_READY", None, false);
        return;
      }
      var slots := if d.action.RedirectProposal? then 2 else 1;
      var reserved := C.ReserveForDecision(reservations, limits, d.workspace, inbound, d.conversation, slots, now);
      if reserved.None? {
        ok := RejectDecisionLocked(inbound, "AUTOMATIC_RATE_LIMIT", None, false);
        return;
      }
      reservations := reserved.value;
      ok := QueueFirstMessage(inbound, now, checks.address);
      if !ok { Rollback(saved); }
    }

    method AuthorizeRedirectAck(inbound: nat, now: int, policy: bool, address: string) returns (ok: bool)
      modifies this
      ensures ok == AuthorizeAck(old(Tables()), inbound, now, policy, address).Some?
      ensures Tables() == Commit(old(Tables()), AuthorizeAck(old(Tables()), inbound, now, policy, address))
      ensures OnlyAdds(old(messages), messages, Auto(RedirectAck, inbound)) && reservations == old(reservations)
      ensures messages != old(messages) ==> ProposalSent(old(Tables()), inbound)
    {
      hide T.OpenTask, T.ReplyGateClear;
      if inbound !in decisions { return false; }
      var d := decisions[inbound];
      if Auto(RedirectAck, inbound) in messages { return true; }
      var proposal := Auto(ReferredProposal, inbound);
      if proposal !in messages || !messages[proposal].state.Sent? { return true; }
      if !d.state.Authorized? && !d.state.Executing? { return true; }
      if !T.ReplyGateClear(tasks, d.contact, d.conversation) {
        ok := RejectDecisionLocked(inbound, "HUMAN_TASK_OPEN", None, true);
        return;
      }
      if !PolicyClear(d, policy) {
        ok := RejectDecisionLocked(inbound, "POLICY_RECHECK_FAILED", None, true);
        return;
      }
      if address != "" {
        ok := RejectDecisionLocked(inbound, address, None, true);
        return;
      }
      messages := messages[Auto(RedirectAck, inbound) := QueuedMessage(now)];
      ok := true;
    }

    /** The worker's view of a preparation. */
    ghost predicate Reports(result: PrepareResult, before: Db, key: Key, now: int, checks: SendChecks)
      reads this
    {
      match Prepare(before, key, now, checks)
      case Raised => result.Raised? && Tables() == before
      case Stopped(db) => result == Stopped(db) && Tables() == db
      case Effect(db) => result == Effect(db) && Tables() == db
    }

    method RefuseSend(inbound: nat, reason: string, key: Key) returns (result: PrepareResult)
      requires inbound in decisions
      modifies this
      ensures var r := Reject(old(Tables()), inbound, reason, Some(key), true);
              && Tables() == Commit(old(Tables()), r)
              && result == if r.Some? then Stopped(r.value) else Raised
      ensures messages.Keys == old(messages).Keys && OnlyRow(old(messages), messages, key)
      ensures reservations == old(reservations)
      ensures key in messages && messages[key] != old(messages)[key] ==> messages[key].state.SendFailed?
    {
      hide T.OpenTask;
      var ok := RejectDecisionLocked(inbound, reason, Some(key), true);
      result := if ok then Stopped(Tables()) else Raised;
    }

    method PrepareOutboundEffect(key: Key, now: int, checks: SendChecks) returns (result: PrepareResult)
      modifies this
      ensures Reports(result, old(Tables()), key, now, checks)
      ensures LeavesAtMost(old(Tables()), Tables(), key, result.Effect?)
      ensures Sound(old(Tables())) ==> (result.Effect? <==> MayLeave(old(Tables()), key, now, checks))
    {
      LeavesExactly(Tables(), key, now, checks);
      hide Sound, MayLeave;
      hide Reject, AutomaticClear, ScheduledClear, RateClear, LeavesAtMost;
      PrepareLeavesAtMost(Tables(), key, now, checks);
      if key !in messages { return Raised; }
      var m := messages[key];
      if m.state in {Sent, SendFailed, Cancelled, Ineligible, Reconciling, Sending} { return Stopped(Tables()); }
      if !m.state.Queued? {
        messages := messages[key := m.(state := SendFailed)];
        return Stopped(Tables());
      }
      if key.Auto? {
        var inbound := key.inbound;
        if inbound !in decisions { return Raised; }
        var d := decisions[inbound];
        if !AutomaticClear(Tables(), key.kind, inbound, checks) {
          result := RefuseSend(inbound, "FINAL_SEND_RECHECK_FAILED", key);
          return;
        }
        if !checks.gmailReady {
          result := RefuseSend(inbound, "GMAIL_NOT_READY", key);
          return;
        }
        if !checks.built {
          result := RefuseSend(inbound, "MIME_OR_ATTACHMENT_FAILURE", key);
          return;
        }
        if !RateClear(Tables(), key, d.workspace, Some(d.conversation), now) {
          result := RefuseSend(inbound, "FINAL_AUTOMATIC_RATE_LIMIT", key);
          return;
        }
        messages := messages[key := m.(state := Sending, attempts := m.attempts + 1,
                                       startedAt := Some(now), nextAttemptAt := None)];
        if !d.state.Executing? { decisions := decisions[inbound := d.(state := Executing)]; }
        assert decisions == old(decisions)[inbound := d.(state := Executing)];
      } else {
        var attempt := key.attempt;
        if !ScheduledClear(Tables(), attempt, checks) {
          messages := messages[key := m.(state := Ineligible, nextAttemptAt := None)];
          return Stopped(Tables());
        }
        if !checks.gmailReady || !checks.built {
          messages := messages[key := m.(state := SendFailed, nextAttemptAt := None)];
          return Stopped(Tables());
        }
        ScheduledClearKnows(Tables(), attempt, checks);
        if TopicAutomatic(Tables(), attempt) && !RateClear(Tables(), key, attempts[attempt].workspace, None, now) {
          messages := messages[key := m.(state := Ineligible, nextAttemptAt := None)];
          return Stopped(Tables());
        }
        messages := messages[key := m.(state := Sending, attempts := m.attempts + 1,
                                       startedAt := Some(now), nextAttemptAt := None)];
      }
      result := Effect(Tables());
    }

    /** The decision follows the thread its message landed in; false when opening the review raises. */
    method SettleDecision(kind: Kind, inbound: nat, thread: string, connected: bool) returns (ok: bool)
      modifies this
      ensures ok == ConfirmAutomatic(old(Tables()), kind, inbound, thread, connected).Some?
      ensures ok ==> Tables() == ConfirmAutomatic(old(Tables()), kind, inbound, thread, connected).value
      ensures messages.Keys == old(messages).Keys && reservations == old(reservations)
      ensures forall k :: k in old(messages) && (k != Auto(kind, inbound) || old(messages)[k].state.Sent?) ==>
                messages[k] == old(messages)[k]
    {
      hide T.OpenTask, TieThread, Reject;
      ok := true;
      if inbound !in decisions { return; }
      var d := decisions[inbound];
      if kind.ReferredProposal? {
        var conflict := thread == "" || thread == d.thread;
        var tied := if conflict then None else TieThread(threads, d.contact, thread, connected);
        decisions := decisions[inbound := d.(state := Executing)];
        if tied.Some? {
          threads := tied.value;
        } else {
          ok := RejectDecisionLocked(inbound, "GMAIL_THREAD_OWNERSHIP_CONFLICT", None, true);
        }
      } else if thread != d.thread {
        ok := RejectDecisionLocked(inbound, "GMAIL_REPLY_THREAD_MISMATCH", Some(Auto(kind, inbound)), true);
      } else {
        decisions := decisions[inbound := d.(state := Completed)];
      }
    }

    method SettleScheduled(attempt: nat, thread: string, connected: bool) returns (ok: bool)
      modifies this
      ensures ok == ConfirmScheduled(old(Tables()), attempt, thread, connected).Some?
      ensures ok ==> Tables() == ConfirmScheduled(old(Tables()), attempt, thread, connected).value
      ensures messages == old(messages) && reservations == old(reservations)
    {
      hide T.OpenTask, TieThread;
      ok := true;
      if attempt !in attempts { return; }
      var contact := attempts[attempt].contact;
      var tied := TieThread(threads, contact, thread, connected);
      if tied.Some? {
        threads := tied.value;
      } else {
        var task := T.OpenTask(tasks, T.OpenRequest(contact, None, None, "SCHEDULED_CONTACT",
                                                      "GMAIL_THREAD_OWNERSHIP_CONFLICT"));
        if task.Some? { tasks := task.value; } else { ok := false; }
      }
    }

    method ConfirmOutboundSent(key: Key, now: int, thread: string, connected: bool) returns (ok: bool)
      modifies this
      ensures ok == Confirm(old(Tables()), key, now, thread, connected).Some?
      ensures Tables() == Commit(old(Tables()), Confirm(old(Tables()), key, now, thread, connected))
      ensures SendsAtMost(old(Tables()), Tables(), key, now)
    {
      hide ConfirmAutomatic, ConfirmScheduled, SendsAtMost;
      var saved := Tables();
      ConfirmSendsAtMost(saved, key, now, thread, connected);
      if key !in messages { return false; }
      var m := messages[key];
      if !m.state.Sending? && !m.state.Reconciling? { return true; }
      messages := messages[key := m.(state := Sent, sentAt := Some(now), nextAttemptAt := None)];
      if key.Auto? {
        ok := SettleDecision(key.kind, key.inbound, thread, connected);
      } else {
        ok := SettleScheduled(key.attempt, thread, connected);
      }
      if !ok { Rollback(saved); }
    }

    method RecordOutboundError(key: Key, now: int, ambiguous: bool) returns (ok: bool)
      modifies this
      ensures ok == RecordError(old(Tables()), key, now, ambiguous).Some?
      ensures Tables() == Commit(old(Tables()), RecordError(old(Tables()), key, now, ambiguous))
      ensures messages.Keys == old(messages).Keys && OnlyRow(old(messages), messages, key)
      ensures reservations == old(reservations) && threads == old(threads)
      ensures ok ==> key in messages && messages[key].state == if ambiguous then Reconciling else SendFailed
    {
      hide T.OpenTask;
      var saved := Tables();
      if key !in messages { return false; }
      var m := messages[key];
      if ambiguous {
        messages := messages[key := m.(state := Reconciling, nextAttemptAt := Some(now + RECONCILE_AFTER))];
        return true;
      }
      messages := messages[key := m.(state := SendFailed, nextAttemptAt := None)];
      ok := true;
      if key.Auto? {
        if key.inbound in decisions {
          ok := RejectDecisionLocked(key.inbound, "GMAIL_DELIVERY_FAILED", Some(key), true);
        } else {
          ok := false;
        }
        if !ok { Rollback(saved); }
      }
    }
  }

  lemma ScheduledClearKnows(db: Db, attempt: nat, checks: SendChecks)
    ensures ScheduledClear(db, attempt, checks) ==> attempt in db.attempts
  {
  }
}
