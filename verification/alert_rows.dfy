/**
 What the transactions on alert emails leave in the rows.
 */
module AlertRows {
  import opened Common
  import opened Notifications

  /** An alert is written once; without a safe link it has failed from the start. */
  lemma EnsuresExactly(t: Table, id: nat, now: int, hasUrl: bool)
    ensures Ensure(t, id, now, hasUrl)
            == if id in t then t
               else t[id := Delivery(if hasUrl then State.Pending else State.Failed, 0, now, None)]
  {
  }

  /** Only a pending alert is taken, and it leaves if its preflight passes; any other row stays. */
  lemma TakesExactly(t: Table, id: nat, now: int, preflight: bool)
    ensures Leaves(t, id, preflight) <==> id in t && t[id].state == State.Pending && preflight
    ensures PrepareAlert(t, id, now, preflight)
            == if id in t && t[id].state == State.Pending then
                 t[id := if preflight then Delivery(State.Sending, t[id].attempts + 1, now, t[id].sentAt)
                         else Delivery(State.Failed, t[id].attempts, now, t[id].sentAt)]
               else t
  {
  }

  /** A sent alert is final; any other takes the state it is given, and the time when that is sent. */
  lemma FinishesExactly(t: Table, id: nat, now: int, state: State)
    ensures Finish(t, id, now, state)
            == if id in t && t[id].state != State.Sent then
                 t[id := Delivery(state, t[id].attempts, now, if state == State.Sent then Some(now) else t[id].sentAt)]
               else t
  {
  }

  // ---------- the world of the alerts ----------

  /** Nothing is forbidden that the code does not forbid: alerts are written at any time; a free worker may prepare any
      alert, fail on a pending one, and look up any in the air; an effect may be handed over; whatever was begun may
      crash, or end, a failed preparation in an error alone. */
  lemma MayHappen(w: World, p: nat, id: nat, now: int, flag: bool, outcome: State)
    ensures Enabled(w, DoEnsure(id, now, flag))
    ensures Enabled(w, DoPrepare(p, id, now, flag)) <==> p !in w.workers
    ensures Enabled(w, PrepareFails(p, id)) <==> p !in w.workers && id in w.table && w.table[id].state == State.Pending
    ensures Enabled(w, StartLookup(p, id)) <==>
              && p !in w.workers && id in w.table
              && (w.table[id].state == State.Sending || w.table[id].state == State.Reconciling)
    ensures Enabled(w, HandOver(p)) <==> p in w.workers && w.workers[p] == Armed(w.workers[p].id)
    ensures Enabled(w, Crash(p)) <==> p in w.workers
    ensures Enabled(w, End(p, now, outcome)) <==>
              && p in w.workers
              && (|| outcome == State.Failed
                  || ((outcome == State.Sent || outcome == State.Reconciling) && !w.workers[p].Failing?))
              && !w.workers[p].Armed?
  {
  }

  /** A call to the provider begins with a hand-over and is logged then, and nothing else is. */
  lemma CallsAreLogged(w: World, op: Op, p: nat)
    requires Enabled(w, op)
    ensures var after := Step(w, op);
            && ((p in after.workers && after.workers[p].Calling? && !(p in w.workers && w.workers[p].Calling?)) <==>
                  op == HandOver(p))
            && (op == HandOver(p) ==>
                  after == World(w.table, w.workers[p := Calling(w.workers[p].id)], w.handed + [w.workers[p].id]))
            && (!op.HandOver? ==> after.handed == w.handed)
  {
  }

  /** A worker holds what it took up, until its end or a crash: an effect only if its alert left. */
  lemma WorkersHoldExactly(w: World, op: Op)
    requires Enabled(w, op) && !op.DoEnsure? && !op.HandOver?
    ensures var after := Step(w, op);
            match op
            case DoPrepare(p, id, _, preflight) =>
              after.workers == if id in w.table && w.table[id].state == State.Pending && preflight
                               then w.workers[p := Armed(id)] else w.workers
            case PrepareFails(p, id) => after.table == w.table && after.workers == w.workers[p := Failing(id)]
            case StartLookup(p, id) => after.table == w.table && after.workers == w.workers[p := LookingUp(id)]
            case End(p, now, outcome) =>
              after.table == Finish(w.table, w.workers[p].id, now, outcome) && after.workers == w.workers - {p}
            case Crash(p) => after.table == w.table && after.workers == w.workers - {p}
            case _ => true
  {
  }
}
