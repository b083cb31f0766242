/**
 What a provider's answer and the other writers of messages leave in the tables, read off the rows.
 */
module Settling {
  import opened Common
  import opened Delivery
  import opened DeliveryAnswers
  import T = HumanTasks
  import C = Capacity
  import A = Admission

  // ---------- a confirmation ----------

  /** The thread belongs to the contact or to nobody, and the Gmail connection is there. */
  predicate MayOwn(db: Db, contact: nat, thread: string, connected: bool) {
    connected && (thread in db.threads ==> db.threads[thread] == contact)
  }

  function Delivered(m: Message, now: int): Message {
    Message(Sent, m.attempts, m.startedAt, None, Some(now), m.approved)
  }

  /** Only a message in the air can be confirmed; an unknown one raises. */
  lemma OnlyInTheAirIsConfirmed(db: Db, key: Key, now: int, thread: string, connected: bool)
    ensures key !in db.messages ==> Confirm(db, key, now, thread, connected) == None
    ensures key in db.messages && !InTheAir(db.messages[key]) ==>
              Confirm(db, key, now, thread, connected) == Some(db)
  {
  }

  /** A confirmed reply or acknowledgement completes its decision if it landed in the thread it answers, and else sends
      the decision to a person; the message is sent either way. */
  lemma ConfirmsAnAnswer(db: Db, kind: Kind, inbound: nat, now: int, thread: string, connected: bool)
    requires kind != ReferredProposal && inbound in db.decisions
    requires Auto(kind, inbound) in db.messages && InTheAir(db.messages[Auto(kind, inbound)])
    ensures var key, d := Auto(kind, inbound), db.decisions[inbound];
            var messages := db.messages[key := Delivered(db.messages[key], now)];
            Confirm(db, key, now, thread, connected)
            == if thread == d.thread then
                 Some(db.(messages := messages, decisions := db.decisions[inbound := d.(state := Completed)]))
               else
                 AfterRejection(db, inbound, "GMAIL_REPLY_THREAD_MISMATCH", HumanRequired, messages, db.reservations)
  {
    hide T.OpenTask;
  }

  /** A confirmed proposal opens a thread of its own for its contact, or sends the decision to a person when it has no
      thread, shares the inbound message's, or the thread is another contact's. */
  lemma ConfirmsAProposal(db: Db, inbound: nat, now: int, thread: string, connected: bool)
    requires inbound in db.decisions
    requires Auto(ReferredProposal, inbound) in db.messages && InTheAir(db.messages[Auto(ReferredProposal, inbound)])
    ensures var key, d := Auto(ReferredProposal, inbound), db.decisions[inbound];
            var messages := db.messages[key := Delivered(db.messages[key], now)];
            Confirm(db, key, now, thread, connected)
            == if thread != "" && thread != d.thread && MayOwn(db, d.contact, thread, connected) then
                 Some(db.(messages := messages, decisions := db.decisions[inbound := d.(state := Executing)],
                          threads := db.threads[thread := d.contact]))
               else
                 AfterRejection(db, inbound, "GMAIL_THREAD_OWNERSHIP_CONFLICT", HumanRequired, messages,
                                db.reservations)
  {
    var key, d := Auto(ReferredProposal, inbound), db.decisions[inbound];
    hide T.OpenTask;
    SameThread(db.threads, thread, d.contact);
    assert db.decisions[inbound := d.(state := Executing)][inbound := d.(state := HumanRequired)]
           == db.decisions[inbound := d.(state := HumanRequired)];
  }

  lemma SameThread(threads: map<string, nat>, thread: string, contact: nat)
    ensures thread in threads && threads[thread] == contact ==> threads[thread := contact] == threads
  {
  }

  /** A confirmed scheduled message opens or keeps a thread of its contact, or else a review of the contact. */
  lemma ConfirmsAScheduled(db: Db, attempt: nat, now: int, thread: string, connected: bool)
    requires Scheduled(attempt) in db.messages && InTheAir(db.messages[Scheduled(attempt)])
    ensures var key := Scheduled(attempt);
            var sent := db.(messages := db.messages[key := Delivered(db.messages[key], now)]);
            && (attempt !in db.attempts ==> Confirm(db, key, now, thread, connected) == Some(sent))
            && (attempt in db.attempts ==>
                  var contact := db.attempts[attempt].contact;
                  var review := T.OpenTask(db.tasks, T.OpenRequest(contact, None, None, "SCHEDULED_CONTACT",
                                                                   "GMAIL_THREAD_OWNERSHIP_CONFLICT"));
                  Confirm(db, key, now, thread, connected)
                  == if MayOwn(db, contact, thread, connected) then
                       Some(sent.(threads := db.threads[thread := contact]))
                     else if review.Some? then Some(sent.(tasks := review.value)) else None)
  {
    hide T.OpenTask;
    if attempt in db.attempts { SameThread(db.threads, thread, db.attempts[attempt].contact); }
  }

  /** An automatic message whose decision is gone is sent all the same. */
  lemma ConfirmsAnOrphan(db: Db, kind: Kind, inbound: nat, now: int, thread: string, connected: bool)
    requires inbound !in db.decisions
    requires Auto(kind, inbound) in db.messages && InTheAir(db.messages[Auto(kind, inbound)])
    ensures var key := Auto(kind, inbound);
            Confirm(db, key, now, thread, connected)
            == Some(db.(messages := db.messages[key := Delivered(db.messages[key], now)]))
  {
  }

  /** The history calls a confirmation tied exactly when the message landed in a thread its contact may own: the thread
      it answers, or for a proposal and a scheduled message one that is free or already the contact's. */
  lemma TiedExactly(db: Db, key: Key, thread: string, connected: bool)
    ensures key.Auto? && key.kind != ReferredProposal ==>
              (Tied(db, key, thread, connected) <==>
                 key.inbound in db.decisions && thread == db.decisions[key.inbound].thread)
    ensures key.Auto? && key.kind == ReferredProposal ==>
              (Tied(db, key, thread, connected) <==>
                 && key.inbound in db.decisions && thread != "" && thread != db.decisions[key.inbound].thread
                 && MayOwn(db, db.decisions[key.inbound].contact, thread, connected))
    ensures key.Scheduled? ==>
              (Tied(db, key, thread, connected) <==>
                 key.attempt in db.attempts && MayOwn(db, db.attempts[key.attempt].contact, thread, connected))
  {
  }

  // ---------- an error ----------

  /** An ambiguous answer leaves any known message to be looked up a minute later; a hard one fails it, and a decision
      behind it goes to a person. */
  lemma RecordsAnError(db: Db, key: Key, now: int)
    ensures key !in db.messages ==>
              RecordError(db, key, now, true) == None && RecordError(db, key, now, false) == None
    ensures key in db.messages ==>
              var m := db.messages[key];
              RecordError(db, key, now, true)
              == Some(db.(messages := db.messages[key := Moved(m, Reconciling, Some(now + 60_000_000))]))
    ensures key in db.messages ==>
              var failed := db.messages[key := Moved(db.messages[key], SendFailed, None)];
              RecordError(db, key, now, false)
              == if key.Scheduled? then Some(db.(messages := failed))
                 else if key.inbound !in db.decisions then None
                 else AfterRejection(db, key.inbound, "GMAIL_DELIVERY_FAILED", HumanRequired, failed, db.reservations)
  {
    assert RECONCILE_AFTER == 60_000_000;
    hide T.OpenTask;
    if key in db.messages {
      var failed := Moved(db.messages[key], SendFailed, None);
      assert db.messages[key := failed][key := failed] == db.messages[key := failed];
    }
  }

  // ---------- the other writers ----------

  predicate Waiting(m: Message) {
    m.state == Prepared || m.state == ReviewReady || m.state == Queued
  }

  /** A reply by a person cancels the waiting messages of its inbound and no other, takes the decision over unless it is
      complete, and resolves the reviews of the inbound. */
  lemma ImportsAReply(db: Db, inbound: nat)
    ensures var db' := ManualReplyImported(db, inbound);
            && db'.messages.Keys == db.messages.Keys
            && (forall k :: k in db.messages ==>
                  db'.messages[k] == if k.Auto? && k.inbound == inbound && Waiting(db.messages[k])
                                     then Moved(db.messages[k], Cancelled, None) else db.messages[k])
            && db'.decisions == (if inbound in db.decisions && db.decisions[inbound].state != Completed
                                 then db.decisions[inbound := db.decisions[inbound].(state := ManualReplyRecorded)]
                                 else db.decisions)
            && db'.tasks == T.ResolveForManualReply(db.tasks, inbound)
            && db' == db.(messages := db'.messages, decisions := db'.decisions, tasks := db'.tasks)
  {
    hide T.ResolveForManualReply;
  }

  /** A cancelled campaign cancels the waiting messages of its inbound messages, which keep their next attempt. */
  lemma CancelsACampaign(db: Db, inbounds: set<nat>)
    ensures var db' := CancelCampaign(db, inbounds);
            && db'.messages.Keys == db.messages.Keys && db' == db.(messages := db'.messages)
            && forall k :: k in db.messages ==>
                 db'.messages[k] == if k.Auto? && k.inbound in inbounds && Waiting(db.messages[k])
                                    then Moved(db.messages[k], Cancelled, db.messages[k].nextAttemptAt)
                                    else db.messages[k]
  {
  }

  /** A draft is written once: for review under a topic that asks for it, and else queued with a slot of the day, or
      not at all when the day is full and a person is asked. */
  lemma CreatesADraft(db: Db, attempt: nat, now: int, conversation: Option<nat>)
    ensures attempt !in db.attempts ==> CreateScheduled(db, attempt, now, conversation) == None
    ensures attempt in db.attempts && Scheduled(attempt) in db.messages ==>
              CreateScheduled(db, attempt, now, conversation) == Some(db)
    ensures attempt in db.attempts && Scheduled(attempt) !in db.messages
            && db.attempts[attempt].topic !in db.automatic ==>
              CreateScheduled(db, attempt, now, conversation)
              == Some(db.(messages := db.messages[Scheduled(attempt)
                                                  := Message(ReviewReady, 0, None, None, None, false)]))
    ensures attempt in db.attempts && Scheduled(attempt) !in db.messages
            && db.attempts[attempt].topic in db.automatic ==>
              var a := db.attempts[attempt];
              var held := A.HasAttempt(db.reservations, attempt);
              var room := A.DayTotal(db.reservations, a.workspace, LocalDate(now)) + 1 <= db.limits.workspace;
              var row := C.Reservation(a.workspace, C.ForAttempt(attempt), now, LocalDate(now), 1);
              var review := T.OpenTask(db.tasks, T.OpenRequest(a.contact, conversation, None, "SCHEDULED_CONTACT",
                                                               "AUTOMATIC_DAILY_LIMIT"));
              CreateScheduled(db, attempt, now, conversation)
              == if held || room then
                   Some(db.(messages := db.messages[Scheduled(attempt)
                                                    := Message(Queued, 0, None, Some(now), None, false)],
                            reservations := if held then db.reservations else db.reservations + [row]))
                 else if review.Some? then Some(db.(tasks := review.value)) else None
  {
    if attempt in db.attempts {
      A.AttemptIsAdmittedExactly(db.reservations, db.limits, db.attempts[attempt].workspace, attempt, now);
    }
    hide T.OpenTask, C.ReserveForAttempt, A.HasAttempt, A.DayTotal;
  }

  /** A person releases a draft waiting for review, and withdraws one that has not left; anything else stays. */
  lemma ReleasesAndWithdraws(db: Db, attempt: nat, now: int)
    ensures var key := Scheduled(attempt);
            && ApproveScheduled(db, attempt, now)
               == (if key in db.messages && db.messages[key].state == ReviewReady then
                     var m := db.messages[key];
                     var released := Message(Queued, m.attempts, m.startedAt, Some(now), m.sentAt, true);
                     db.(messages := db.messages[key := released])
                   else db)
            && CancelScheduled(db, attempt)
               == (if key in db.messages && Waiting(db.messages[key])
                   then db.(messages := db.messages[key := Moved(db.messages[key], Cancelled, None)]) else db)
  {
    var key := Scheduled(attempt);
    if key in db.messages { assert db.messages[key := db.messages[key]] == db.messages; }
  }

  /** A topic's mode is what it was set to last. */
  lemma SetsAMode(db: Db, topic: nat, automatic: bool)
    ensures var db' := SetMode(db, topic, automatic);
            && db' == db.(automatic := db'.automatic)
            && forall t :: t in db'.automatic <==> if t == topic then automatic else t in db.automatic
  {
  }
}
