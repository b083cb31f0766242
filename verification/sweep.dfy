/**
 The whole recovery sweep, `recover_automation_actions` (`automation/tasks.py`): decisions and messages, alerts, and the
 follow-up attempts whose message has ended but whose plan has not heard of it.

 Celery jobs are listed; the completions of follow-up attempts run inside the sweep, each in its own transaction.
 */
module Sweep {
  import opened Common
  import D = Delivery
  import R = Recovery
  import N = Notifications
  import S = Scheduled

  datatype Job = Act(action: R.Job) | DeliverAlert(id: nat) | ReconcileAlert(id: nat)

  /** The jobs a sweep at `now` owes: no less, and nothing else. */
  ghost predicate Owed(db: D.Db, alerts: N.Table, now: int, job: Job) {
    match job
    case Act(action) => R.IsJob(db, now, action)
    case DeliverAlert(id) => id in alerts && alerts[id].state.Pending?
    case ReconcileAlert(id) => N.PickedUp(alerts, id, now) && !alerts[id].state.Pending?
  }

  ghost predicate Distinct<T>(s: seq<T>) {
    forall i, j :: 0 <= i < j < |s| ==> s[i] != s[j]
  }

  lemma DistinctSum<T>(a: seq<T>, b: seq<T>)
    requires Distinct(a) && Distinct(b) && forall x :: x in a ==> x !in b
    ensures Distinct(a + b)
  {
    forall i, j | 0 <= i < j < |a + b| ensures (a + b)[i] != (a + b)[j] {
      if i < |a| <= j { assert (a + b)[i] in a && (a + b)[j] in b; }
    }
  }

  method QueueDecisions(db: D.Db, now: int) returns (jobs: seq<Job>)
    ensures forall job :: job in jobs <==> job.Act? && job.action.ExecuteDecision? && Owed(db, map[], now, job)
    ensures Distinct(jobs)
  {
    jobs := [];
    var decisionIds := set i | i in db.decisions && R.PendingDecision(db, i);
    while decisionIds != {}
      invariant decisionIds <= set i | i in db.decisions && R.PendingDecision(db, i)
      invariant forall job :: job in jobs <==>
        job.Act? && job.action.ExecuteDecision? && Owed(db, map[], now, job) && job.action.inbound !in decisionIds
      invariant Distinct(jobs)
    {
      var i :| i in decisionIds;
      jobs := jobs + [Act(R.ExecuteDecision(i))];
      decisionIds := decisionIds - {i};
    }
  }

  method QueueMessages(db: D.Db, now: int) returns (jobs: seq<Job>)
    ensures forall job :: job in jobs <==> job.Act? && !job.action.ExecuteDecision? && Owed(db, map[], now, job)
    ensures Distinct(jobs)
  {
    jobs := [];
    var messageIds := set k | k in db.messages && R.RecoverableKey(db, k, now);
    while messageIds != {}
      invariant messageIds <= set k | k in db.messages && R.RecoverableKey(db, k, now)
      invariant forall job :: job in jobs <==>
        job.Act? && !job.action.ExecuteDecision? && Owed(db, map[], now, job) && job.action.key !in messageIds
      invariant Distinct(jobs)
    {
      var k :| k in messageIds;
      if D.InFlight(db.messages[k].state) {
        jobs := jobs + [Act(R.Reconcile(k))];
      } else if !k.Auto? {
        jobs := jobs + [Act(R.Deliver(k))];
      }
      messageIds := messageIds - {k};
    }
  }

  method QueueAlerts(db: D.Db, alerts: N.Table, now: int) returns (jobs: seq<Job>)
    ensures forall job :: job in jobs <==> !job.Act? && Owed(db, alerts, now, job)
    ensures Distinct(jobs)
  {
    jobs := [];
    var pending := set id | id in alerts && alerts[id].state.Pending?;
    while pending != {}
      invariant pending <= set id | id in alerts && alerts[id].state.Pending?
      invariant forall job :: job in jobs <==>
        job.DeliverAlert? && Owed(db, alerts, now, job) && job.id !in pending
      invariant Distinct(jobs)
    {
      var id :| id in pending;
      jobs := jobs + [DeliverAlert(id)];
      pending := pending - {id};
    }
    var stale := set id | id in alerts && N.PickedUp(alerts, id, now) && !alerts[id].state.Pending?;
    while stale != {}
      invariant stale <= set id | id in alerts && N.PickedUp(alerts, id, now) && !alerts[id].state.Pending?
      invariant forall job :: job in jobs <==>
        !job.Act? && Owed(db, alerts, now, job) && (job.DeliverAlert? || job.id !in stale)
      invariant Distinct(jobs)
    {
      var id :| id in stale;
      jobs := jobs + [ReconcileAlert(id)];
      stale := stale - {id};
    }
  }

  // ---------- completions ----------

  /** `scheduled_outbound_ids_for_completion`. */
  predicate Unreported(b: S.Book, k: S.Key) {
    && k in b.attempts && b.attempts[k].state.Authorized?
    && S.OutboundIs(b, k, {S.Sent, S.SendFailed, S.Blocked, S.OutCancelled})
  }

  /** Nothing but the states of completed attempts and the plans they report to has changed. */
  ghost predicate OnlyReported(b: S.Book, b': S.Book) {
    && b'.topics == b.topics && |b'.plans| == |b.plans| && b'.attempts.Keys == b.attempts.Keys
    && (forall k :: k in b.attempts ==> b'.attempts[k].outbound == b.attempts[k].outbound)
    && (forall k :: k in b.attempts && !Unreported(b, k) ==> b'.attempts[k] == b.attempts[k])
    && (forall p :: 0 <= p < |b.plans| && b'.plans[p] != b.plans[p] ==>
          exists k: S.Key :: k.plan == p && Unreported(b, k) && S.OutboundIs(b, k, {S.Sent}))
  }

  /** What the plan of a reported send has heard: the send of one of its attempts, this one or another. */
  ghost predicate Heard(b: S.Book, b': S.Book, k: S.Key)
    requires k in b.attempts && k.plan < |b'.plans|
  {
    exists j: S.Key, at: int :: j.plan == k.plan && Unreported(b, j) && S.OutboundIs(b, j, {S.Sent})
                    && b'.plans[k.plan].lastSent == Some(at)
                    && b.attempts[j].outbound.value.sentAt in {None, Some(at)}
  }

  /** The attempts of `b` that `b'` has dealt with: sent ones are recorded, the others wait for a person. */
  ghost predicate Reported(b: S.Book, b': S.Book, k: S.Key)
    requires Unreported(b, k)
  {
    k in b'.attempts &&
    if S.OutboundIs(b, k, {S.Sent}) then b'.attempts[k].state.AttemptSent? && k.plan < |b'.plans| && Heard(b, b', k)
    else b'.attempts[k].state.HumanRequired?
  }

  ghost predicate AllReported(b: S.Book, b': S.Book, left: set<S.Key>) {
    forall k :: Unreported(b, k) && k !in left ==> Reported(b, b', k)
  }

  /** What one completion changes. */
  ghost predicate CompletesOne(b': S.Book, b'': S.Book, k: S.Key, now: int)
    requires k in b'.attempts && k.plan < |b'.plans|
  {
    && b''.topics == b'.topics && |b''.plans| == |b'.plans| && b''.attempts.Keys == b'.attempts.Keys
    && (forall j :: j in b'.attempts && j != k ==> b''.attempts[j] == b'.attempts[j])
    && b''.attempts[k].outbound == b'.attempts[k].outbound
    && (forall p :: 0 <= p < |b'.plans| && p != k.plan ==> b''.plans[p] == b'.plans[p])
    && if S.OutboundIs(b', k, {S.Sent}) then
         && b''.attempts[k].state.AttemptSent?
         && b''.plans[k.plan].lastSent == Some(S.SentTime(b'.attempts[k].outbound.value, now))
       else b''.attempts[k].state.HumanRequired? && b''.plans == b'.plans
  }

  lemma CompleteCompletesOne(b': S.Book, k: S.Key, now: int)
    requires S.WellFormed(b') && Unreported(b', k)
    ensures S.WellFormed(S.Complete(b', k, now, true)) && CompletesOne(b', S.Complete(b', k, now, true), k, now)
  {
    hide S.DueAfterSend;
  }

  lemma StillOnlyReported(b: S.Book, b': S.Book, b'': S.Book, k: S.Key, now: int)
    requires S.WellFormed(b) && OnlyReported(b, b') && Unreported(b, k) && b'.attempts[k] == b.attempts[k]
    requires CompletesOne(b', b'', k, now)
    ensures OnlyReported(b, b'')
  {
    forall p | 0 <= p < |b.plans| && b''.plans[p] != b.plans[p]
      ensures exists j: S.Key :: j.plan == p && Unreported(b, j) && S.OutboundIs(b, j, {S.Sent})
    {
      if b''.plans[p] != b'.plans[p] {
        assert k.plan == p && Unreported(b, k) && S.OutboundIs(b, k, {S.Sent});
      } else {
        assert b'.plans[p] != b.plans[p];
      }
    }
  }

  lemma StillReported(b: S.Book, b': S.Book, b'': S.Book, left: set<S.Key>, k: S.Key, now: int)
    requires S.WellFormed(b) && OnlyReported(b, b') && AllReported(b, b', left)
    requires Unreported(b, k) && k in left && b'.attempts[k] == b.attempts[k]
    requires CompletesOne(b', b'', k, now)
    ensures AllReported(b, b'', left - {k})
  {
    hide OnlyReported;
    KeepsSize(b, b');
    forall j | Unreported(b, j) && j !in left - {k} ensures Reported(b, b'', j) {
      if j != k { assert Reported(b, b', j); }
      if S.OutboundIs(b, j, {S.Sent}) {
        if j.plan == k.plan && S.OutboundIs(b, k, {S.Sent}) {
          var at := S.SentTime(b.attempts[k].outbound.value, now);
          assert b''.plans[j.plan].lastSent == Some(at);
          assert b.attempts[k].outbound.value.sentAt in {None, Some(at)};
          assert Heard(b, b'', j);
        } else {
          assert Heard(b, b', j);
          assert b''.plans[j.plan] == b'.plans[j.plan];
        }
      }
    }
  }

  lemma KeepsSize(b: S.Book, b': S.Book)
    requires OnlyReported(b, b')
    ensures |b'.plans| == |b.plans| && b'.attempts.Keys == b.attempts.Keys
  {
  }

  lemma CompleteReports(b: S.Book, b': S.Book, left: set<S.Key>, k: S.Key, now: int)
    requires S.WellFormed(b) && S.WellFormed(b') && OnlyReported(b, b') && AllReported(b, b', left)
    requires Unreported(b, k) && k in left && k in b'.attempts && b'.attempts[k] == b.attempts[k]
    ensures var b'' := S.Complete(b', k, now, true);
            S.WellFormed(b'') && OnlyReported(b, b'') && AllReported(b, b'', left - {k})
    ensures var b'' := S.Complete(b', k, now, true);
            forall j :: j in b.attempts && j != k ==> j in b''.attempts && b''.attempts[j] == b'.attempts[j]
  {
    hide S.Complete, OnlyReported, AllReported;
    KeepsSize(b, b');
    CompleteCompletesOne(b', k, now);
    StillOnlyReported(b, b', S.Complete(b', k, now, true), k, now);
    StillReported(b, b', S.Complete(b', k, now, true), left, k, now);
  }

  lemma NothingReportedYet(b: S.Book)
    ensures OnlyReported(b, b) && AllReported(b, b, set k | k in b.attempts && Unreported(b, k))
  {
  }

  lemma NothingLeftUnreported(b: S.Book, b': S.Book)
    requires OnlyReported(b, b') && AllReported(b, b', {})
    ensures forall k :: !Unreported(b', k)
  {
    forall k | k in b.attempts ensures !Unreported(b', k) {
      if Unreported(b, k) { assert Reported(b, b', k); } else { assert b'.attempts[k] == b.attempts[k]; }
    }
  }

  /** The completions of a list of attempts, one after the other. */
  function CompleteAll(b: S.Book, order: seq<S.Key>, now: int): (r: S.Book)
    requires S.WellFormed(b)
    ensures S.WellFormed(r)
  {
    if order == [] then b
    else S.Complete(CompleteAll(b, order[..|order| - 1], now), order[|order| - 1], now, true)
  }

  /** The completions of the sweep; a refused human task raises and ends it. */
  method ReportCompletions(b: S.Book, now: int, opens: S.Key -> bool)
      returns (b': S.Book, completed: nat, finished: bool, ghost order: seq<S.Key>)
    requires S.WellFormed(b)
    ensures b' == CompleteAll(b, order, now) && completed == |order| && Distinct(order)
    ensures forall k :: k in order ==> Unreported(b, k)
    ensures finished ==> forall k :: Unreported(b, k) ==> k in order
    ensures S.WellFormed(b') && OnlyReported(b, b')
    ensures finished ==> AllReported(b, b', {}) && forall k :: !Unreported(b', k)
    ensures finished <==> forall k :: Unreported(b, k) && !S.OutboundIs(b, k, {S.Sent}) ==> opens(k)
    ensures completed <= |set k | k in b.attempts && Unreported(b, k)|
    ensures finished ==> completed == |set k | k in b.attempts && Unreported(b, k)|
  {
    hide S.Complete, S.WellFormed, OnlyReported, AllReported;
    NothingReportedYet(b);
    var messageIds := set k | k in b.attempts && Unreported(b, k);
    ghost var all := messageIds;
    b', completed, finished, order := b, 0, true, [];
    while messageIds != {}
      invariant messageIds <= all && completed + |messageIds| == |all|
      invariant S.WellFormed(b') && OnlyReported(b, b') && AllReported(b, b', messageIds)
      invariant b' == CompleteAll(b, order, now) && completed == |order| && Distinct(order)
      invariant forall k :: k in order <==> k in all - messageIds
      invariant b'.attempts.Keys == b.attempts.Keys
      invariant forall k :: k in messageIds ==> b'.attempts[k] == b.attempts[k]
      invariant forall k :: k in all - messageIds && !S.OutboundIs(b, k, {S.Sent}) ==> opens(k)
      decreases |messageIds|
    {
      var k :| k in messageIds;
      if S.EndedBadly(b', k) && !opens(k) {
        finished := false;
        return;
      }
      CompleteReports(b, b', messageIds, k, now);
      b' := S.Complete(b', k, now, true);
      KeepsSize(b, b');
      order := order + [k];
      assert order[..|order| - 1] + [k] == order;
      messageIds, completed := messageIds - {k}, completed + 1;
    }
    NothingLeftUnreported(b, b');
  }

  /** `recover_automation_actions`: each owed job is queued exactly once, every follow-up attempt whose message has
      ended is reported, one completion after the other, and the number returned counts both. */
  method RecoverAutomationActions(db: D.Db, alerts: N.Table, b: S.Book, now: int, opens: S.Key -> bool)
      returns (jobs: seq<Job>, b': S.Book, queued: nat, finished: bool, ghost order: seq<S.Key>)
    requires S.WellFormed(b)
    ensures b' == CompleteAll(b, order, now) && Distinct(order)
    ensures forall k :: k in order ==> Unreported(b, k)
    ensures finished ==> forall k :: Unreported(b, k) ==> k in order
    ensures forall job :: job in jobs <==> Owed(db, alerts, now, job)
    ensures Distinct(jobs)
    ensures S.WellFormed(b') && OnlyReported(b, b')
    ensures finished <==> forall k :: Unreported(b, k) && !S.OutboundIs(b, k, {S.Sent}) ==> opens(k)
    ensures finished ==> AllReported(b, b', {}) && forall k :: !Unreported(b', k)
    ensures finished ==> queued == |jobs| + |set k | k in b.attempts && Unreported(b, k)|
  {
    var decisionJobs := QueueDecisions(db, now);
    var messageJobs := QueueMessages(db, now);
    var alertJobs := QueueAlerts(db, alerts, now);
    DistinctSum(decisionJobs, messageJobs);
    DistinctSum(decisionJobs + messageJobs, alertJobs);
    jobs := decisionJobs + messageJobs + alertJobs;
    var completed;
    b', completed, finished, order := ReportCompletions(b, now, opens);
    queued := |jobs| + completed;
  }
}
