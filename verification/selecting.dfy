/**
 Which rows the recovery sweep selects, and what executing a decision delivers next, read off the rows.
 */
module Selecting {
  import opened Common
  import D = Delivery
  import R = Recovery
  import N = Notifications
  import S = Scheduled
  import W = Sweep

  const TWO_MINUTES := 120_000_000

  /** A live decision that is allowed, authorised or under way is executed. */
  lemma ExecutesExactly(db: D.Db, alerts: N.Table, now: int, inbound: nat)
    ensures W.Owed(db, alerts, now, W.Act(R.ExecuteDecision(inbound))) <==>
              && inbound in db.decisions && db.decisions[inbound].mode == D.Live
              && (|| db.decisions[inbound].state == D.AutoEligible || db.decisions[inbound].state == D.Authorized
                  || db.decisions[inbound].state == D.Executing)
  {
  }

  /** A message is looked up when its send began two minutes ago, or when its next look-up is due. */
  lemma ReconcilesExactly(db: D.Db, alerts: N.Table, now: int, key: D.Key)
    ensures W.Owed(db, alerts, now, W.Act(R.Reconcile(key))) <==>
              key in db.messages &&
              var m := db.messages[key];
              || (m.state == D.Sending && m.startedAt.Some? && m.startedAt.value + TWO_MINUTES <= now)
              || (m.state == D.Reconciling && m.nextAttemptAt.Some? && m.nextAttemptAt.value <= now)
  {
  }

  /** A queued scheduled message is delivered when its next attempt is due or has no date; automatic ones never are. */
  lemma DeliversExactly(db: D.Db, alerts: N.Table, now: int, key: D.Key)
    ensures W.Owed(db, alerts, now, W.Act(R.Deliver(key))) <==>
              key in db.messages && key.Scheduled? && db.messages[key].state == D.Queued
              && (db.messages[key].nextAttemptAt == None || db.messages[key].nextAttemptAt.value <= now)
  {
  }

  /** A pending alert is sent; one being looked up, or in the air for two minutes, is looked up. */
  lemma AlertsExactly(db: D.Db, alerts: N.Table, now: int, id: nat)
    ensures W.Owed(db, alerts, now, W.DeliverAlert(id)) <==> id in alerts && alerts[id].state == N.Pending
    ensures W.Owed(db, alerts, now, W.ReconcileAlert(id)) <==>
              id in alerts && (|| alerts[id].state == N.Reconciling
                               || (alerts[id].state == N.Sending && alerts[id].updatedAt + TWO_MINUTES <= now))
  {
  }

  /** An authorised attempt is reported when its message is sent, failed, ineligible or cancelled. */
  lemma ReportsExactly(b: S.Book, k: S.Key)
    ensures W.Unreported(b, k) <==>
              k in b.attempts && b.attempts[k].state == S.Authorized && b.attempts[k].outbound.Some? &&
              var state := b.attempts[k].outbound.value.state;
              state == S.Sent || state == S.SendFailed || state == S.Blocked || state == S.OutCancelled
  {
  }

  /** When a row is due at the latest: two minutes after its start, at its next attempt, or at once. */
  lemma DueExactly(m: D.Message)
    ensures m.state == D.Sending && m.startedAt.Some? ==> R.Deadline(m) == m.startedAt.value + TWO_MINUTES
    ensures (m.state != D.Sending || m.startedAt == None) && m.nextAttemptAt.Some? ==>
              R.Deadline(m) == m.nextAttemptAt.value
    ensures (m.state != D.Sending || m.startedAt == None) && m.nextAttemptAt == None ==> R.Deadline(m) == 0
  {
  }

  /** A decision delivers its reply; a redirect its proposal until that is sent, and then the acknowledgement if it has
      one. */
  lemma DeliversNext(db: D.Db, inbound: nat)
    ensures inbound !in db.decisions ==> R.NextDelivery(db, inbound) == None
    ensures inbound in db.decisions && db.decisions[inbound].action != D.RedirectProposal ==>
              R.NextDelivery(db, inbound) == Some(D.Auto(D.AutomaticReply, inbound))
    ensures inbound in db.decisions && db.decisions[inbound].action == D.RedirectProposal ==>
              var proposal, ack := D.Auto(D.ReferredProposal, inbound), D.Auto(D.RedirectAck, inbound);
              R.NextDelivery(db, inbound)
              == if !(proposal in db.messages && db.messages[proposal].state == D.Sent) then Some(proposal)
                 else if ack in db.messages then Some(ack) else None
  {
  }
}
