/**
 Alert emails about human tasks (`automation/notifications.py`): the delivery protocol in small.

 Unlike `_record_outbound_error`, `_finish_notification` respects a confirmed row, so here a sent alert is final
 and the sweep forgets nothing, however workers overlap.
 */
module Notifications {
  import opened Common

  const STALE_SENDING_AFTER: int := 2 * MINUTE

  datatype State = Pending | Sending | Reconciling | Sent | Failed

  datatype Delivery = Delivery(state: State, attempts: nat, updatedAt: int, sentAt: Option<int>)

  type Table = map<nat, Delivery>

  // ---------- transactions ----------

  /** `ensure_notification_deliveries` for one administrator; without a safe link the alert fails at once. */
  function Ensure(t: Table, id: nat, now: int, hasUrl: bool): Table {
    if id in t then t else t[id := Delivery(if hasUrl then Pending else Failed, 0, now, None)]
  }

  /** `_prepare_notification` after its preflight. */
  function PrepareAlert(t: Table, id: nat, now: int, preflight: bool): Table {
    if id !in t || !t[id].state.Pending? then t
    else if !preflight then t[id := t[id].(state := Failed, updatedAt := now)]
    else t[id := t[id].(state := Sending, attempts := t[id].attempts + 1, updatedAt := now)]
  }

  predicate Leaves(t: Table, id: nat, preflight: bool) {
    id in t && t[id].state.Pending? && preflight
  }

  /** `_finish_notification`: a sent row stays as it is. */
  function Finish(t: Table, id: nat, now: int, state: State): Table {
    if id !in t || t[id].state.Sent? then t
    else t[id := t[id].(state := state, updatedAt := now, sentAt := if state.Sent? then Some(now) else t[id].sentAt)]
  }

  // ---------- runs ----------

  datatype Worker = Armed(id: nat) | Calling(id: nat) | LookingUp(id: nat) | Failing(id: nat)

  /** `handed` lists the alerts in the order they were handed to the provider. */
  datatype World = World(table: Table, workers: map<nat, Worker>, handed: seq<nat>)

  datatype Op =
    | DoEnsure(id: nat, now: int, hasUrl: bool)
    | DoPrepare(worker: nat, id: nat, now: int, preflight: bool)
    | PrepareFails(worker: nat, id: nat)
    | HandOver(worker: nat)
    | End(worker: nat, now: int, outcome: State)
    | StartLookup(worker: nat, id: nat)
    | Crash(worker: nat)

  /** A send or a lookup ends in a confirmation, an ambiguous or a hard error; a failed preparation only in an
      error. */
  predicate Enabled(w: World, op: Op) {
    match op
    case DoEnsure(_, _, _) => true
    case DoPrepare(p, _, _, _) => p !in w.workers
    case PrepareFails(p, id) => p !in w.workers && id in w.table && w.table[id].state.Pending?
    case HandOver(p) => p in w.workers && w.workers[p].Armed?
    case End(p, _, outcome) =>
      && p in w.workers && !w.workers[p].Armed?
      && outcome in {Sent, Reconciling, Failed} && (w.workers[p].Failing? ==> outcome.Failed?)
    case StartLookup(p, id) => p !in w.workers && id in w.table && w.table[id].state in {Sending, Reconciling}
    case Crash(p) => p in w.workers
  }

  function Step(w: World, op: Op): World
    requires Enabled(w, op)
  {
    match op
    case DoEnsure(id, now, hasUrl) => w.(table := Ensure(w.table, id, now, hasUrl))
    case DoPrepare(p, id, now, preflight) =>
      var next := w.(table := PrepareAlert(w.table, id, now, preflight));
      if Leaves(w.table, id, preflight) then next.(workers := w.workers[p := Armed(id)]) else next
    case PrepareFails(p, id) => w.(workers := w.workers[p := Failing(id)])
    case HandOver(p) =>
      w.(workers := w.workers[p := Calling(w.workers[p].id)], handed := w.handed + [w.workers[p].id])
    case End(p, now, outcome) =>
      w.(table := Finish(w.table, w.workers[p].id, now, outcome), workers := w.workers - {p})
    case StartLookup(p, id) => w.(workers := w.workers[p := LookingUp(id)])
    case Crash(p) => w.(workers := w.workers - {p})
  }

  ghost predicate Runs(w: World, ops: seq<Op>)
    decreases |ops|
  {
    ops == [] || (Enabled(w, ops[0]) && Runs(Step(w, ops[0]), ops[1..]))
  }

  ghost function Final(w: World, ops: seq<Op>): World
    requires Runs(w, ops)
    decreases |ops|
  {
    if ops == [] then w else Final(Step(w, ops[0]), ops[1..])
  }

  const EMPTY := World(map[], map[], [])

  /** A row was attempted at most once, and not at all while it is pending; a sent row carries its time. */
  ghost predicate RowsOk(t: Table) {
    forall id :: id in t ==>
      && t[id].attempts <= 1 && (t[id].state.Pending? ==> t[id].attempts == 0)
      && (t[id].state.Sent? ==> t[id].sentAt.Some?)
  }

  ghost predicate HandedOk(t: Table, handed: seq<nat>) {
    && (forall id :: id in handed ==> id in t && t[id].attempts == 1)
    && (forall i, j :: 0 <= i < j < |handed| ==> handed[i] != handed[j])
  }

  /** At most one worker is about to hand an alert over, and then nobody has done so before. */
  ghost predicate ArmedOk(w: World) {
    && (forall p :: p in w.workers && w.workers[p].Armed? ==>
          w.workers[p].id in w.table && w.table[w.workers[p].id].attempts == 1 && w.workers[p].id !in w.handed)
    && (forall p, q :: p in w.workers && q in w.workers && p != q && w.workers[p].Armed? && w.workers[q].Armed? ==>
          w.workers[p].id != w.workers[q].id)
  }

  ghost predicate Inv(w: World) {
    RowsOk(w.table) && HandedOk(w.table, w.handed) && ArmedOk(w)
  }

  /** Rows only change short of a new attempt, and sent rows not at all. */
  ghost predicate Calm(t: Table, t': Table) {
    forall id :: id in t ==> id in t' && t'[id].attempts == t[id].attempts && (t[id].state.Sent? ==> t'[id] == t[id])
  }

  ghost predicate SentStays(t: Table, t': Table) {
    forall id :: id in t && t[id].state.Sent? ==> id in t' && t'[id] == t[id]
  }

  lemma EnsureIsCalm(t: Table, id: nat, now: int, hasUrl: bool)
    requires RowsOk(t)
    ensures Calm(t, Ensure(t, id, now, hasUrl)) && RowsOk(Ensure(t, id, now, hasUrl))
  {
  }

  lemma StoppedIsCalm(t: Table, id: nat, now: int, preflight: bool)
    requires RowsOk(t) && !Leaves(t, id, preflight)
    ensures Calm(t, PrepareAlert(t, id, now, preflight)) && RowsOk(PrepareAlert(t, id, now, preflight))
  {
  }

  lemma FinishIsCalm(t: Table, id: nat, now: int, state: State)
    requires RowsOk(t) && !state.Pending?
    ensures Calm(t, Finish(t, id, now, state)) && RowsOk(Finish(t, id, now, state))
  {
  }

  /** New rows of a calm step, and workers that are not armed, do not disturb the invariant. */
  lemma CalmKeepsInv(w: World, t': Table, workers': map<nat, Worker>)
    requires Inv(w) && Calm(w.table, t') && RowsOk(t')
    requires forall p :: p in workers' && workers'[p].Armed? ==> p in w.workers && workers'[p] == w.workers[p]
    ensures Inv(World(t', workers', w.handed)) && SentStays(w.table, t')
  {
  }

  lemma PrepareKeepsInv(w: World, p: nat, id: nat, now: int)
    requires Inv(w) && p !in w.workers && Leaves(w.table, id, true)
    ensures var t' := PrepareAlert(w.table, id, now, true);
            Inv(World(t', w.workers[p := Armed(id)], w.handed)) && SentStays(w.table, t')
  {
  }

  lemma HandOverKeepsInv(w: World, p: nat)
    requires Inv(w) && p in w.workers && w.workers[p].Armed?
    ensures Inv(Step(w, HandOver(p)))
  {
    hide RowsOk;
    var id := w.workers[p].id;
    assert HandedOk(w.table, w.handed + [id]);
  }

  lemma InvRows(w: World)
    requires Inv(w)
    ensures RowsOk(w.table)
  {
  }

  lemma StepKeepsInv(w: World, op: Op)
    requires Inv(w) && Enabled(w, op)
    ensures Inv(Step(w, op)) && SentStays(w.table, Step(w, op).table)
  {
    hide Inv, RowsOk, HandedOk, ArmedOk, Calm, SentStays;
    InvRows(w);
    match op
    case DoEnsure(id, now, hasUrl) =>
      EnsureIsCalm(w.table, id, now, hasUrl);
      CalmKeepsInv(w, Ensure(w.table, id, now, hasUrl), w.workers);
    case DoPrepare(p, id, now, preflight) =>
      if Leaves(w.table, id, preflight) {
        PrepareKeepsInv(w, p, id, now);
      } else {
        StoppedIsCalm(w.table, id, now, preflight);
        CalmKeepsInv(w, PrepareAlert(w.table, id, now, preflight), w.workers);
      }
    case HandOver(p) =>
      HandOverKeepsInv(w, p);
      CalmRefl(w.table);
    case End(p, now, outcome) =>
      FinishIsCalm(w.table, w.workers[p].id, now, outcome);
      CalmKeepsInv(w, Finish(w.table, w.workers[p].id, now, outcome), w.workers - {p});
    case _ =>
      CalmRefl(w.table);
      CalmKeepsInv(w, w.table, Step(w, op).workers);
  }

  lemma CalmRefl(t: Table)
    ensures Calm(t, t) && SentStays(t, t)
  {
  }

  lemma {:induction false} RunKeepsInv(w: World, ops: seq<Op>)
    requires Inv(w) && Runs(w, ops)
    ensures Inv(Final(w, ops))
    ensures SentStays(w.table, Final(w, ops).table)
    decreases |ops|
  {
    hide Inv, Step, Enabled;
    if ops != [] {
      StepKeepsInv(w, ops[0]);
      RunKeepsInv(Step(w, ops[0]), ops[1..]);
    }
  }

  function CountOf(s: seq<nat>, id: nat): nat {
    if s == [] then 0 else CountOf(s[..|s| - 1], id) + (if s[|s| - 1] == id then 1 else 0)
  }

  lemma {:induction false} DistinctCount(s: seq<nat>, id: nat)
    requires forall i, j :: 0 <= i < j < |s| ==> s[i] != s[j]
    ensures CountOf(s, id) == if id in s then 1 else 0
  {
    if s != [] {
      DistinctCount(s[..|s| - 1], id);
      assert s == s[..|s| - 1] + [s[|s| - 1]];
    }
  }

  /** In every interleaving an alert is handed over at most once, and one that failed its preflight never. */
  lemma AlertHandedOverAtMostOnce(ops: seq<Op>, id: nat)
    requires Runs(EMPTY, ops)
    ensures CountOf(Final(EMPTY, ops).handed, id) <= 1
    ensures CountOf(Final(EMPTY, ops).handed, id) == 1 ==>
              id in Final(EMPTY, ops).table && Final(EMPTY, ops).table[id].attempts == 1
  {
    RunKeepsInv(EMPTY, ops);
    DistinctCount(Final(EMPTY, ops).handed, id);
  }

  // ---------- recovery ----------

  /** `pending_notification_ids` and `recoverable_notification_ids`. */
  predicate PickedUp(t: Table, id: nat, now: int) {
    id in t &&
    match t[id].state
    case Pending => true
    case Reconciling => true
    case Sending => t[id].updatedAt <= now - STALE_SENDING_AFTER
    case _ => false
  }

  lemma RunsAppend(w: World, first: seq<Op>, second: seq<Op>)
    requires Runs(w, first) && Runs(Final(w, first), second)
    ensures Runs(w, first + second) && Final(w, first + second) == Final(Final(w, first), second)
    decreases |first|
  {
    if first == [] {
      assert first + second == second;
    } else {
      assert (first + second)[1..] == first[1..] + second;
      RunsAppend(Step(w, first[0]), first[1..], second);
    }
  }

  /** With no assumption on overlap, an alert at any moment of any run is either sent for good, whatever happens
      later, or failed, or taken up by the next sweep after two minutes. */
  lemma AlertIsFinalOrPickedUp(before: seq<Op>, after: seq<Op>, id: nat, now: int)
    requires Runs(EMPTY, before) && Runs(Final(EMPTY, before), after)
    requires id in Final(EMPTY, before).table
    ensures var t := Final(EMPTY, before).table;
            || (t[id].state.Sent? && Runs(EMPTY, before + after)
                && id in Final(EMPTY, before + after).table && Final(EMPTY, before + after).table[id] == t[id])
            || t[id].state.Failed?
            || (now >= t[id].updatedAt + STALE_SENDING_AFTER ==> PickedUp(t, id, now))
  {
    RunKeepsInv(EMPTY, before);
    RunKeepsInv(Final(EMPTY, before), after);
    RunsAppend(EMPTY, before, after);
  }

  // ---------- the service in its own, imperative form ----------

  class AlertDesk {
    var rows: Table

    constructor ()
      ensures rows == map[]
    {
      rows := map[];
    }

    method PrepareNotification(id: nat, now: int, preflight: bool) returns (effect: bool)
      modifies this
      ensures rows == PrepareAlert(old(rows), id, now, preflight)
      ensures effect == Leaves(old(rows), id, preflight)
    {
      if id !in rows { return false; }
      var delivery := rows[id];
      if delivery.state in {Sent, Failed, Sending, Reconciling} { return false; }
      if !preflight {
        rows := rows[id := delivery.(state := Failed, updatedAt := now)];
        return false;
      }
      rows := rows[id := delivery.(state := Sending, attempts := delivery.attempts + 1, updatedAt := now)];
      effect := true;
    }

    method FinishNotification(id: nat, now: int, state: State)
      modifies this
      ensures rows == Finish(old(rows), id, now, state)
      ensures id in old(rows) && old(rows)[id].state.Sent? ==> rows == old(rows)
    {
      if id !in rows || rows[id].state.Sent? { return; }
      var delivery := rows[id].(state := state, updatedAt := now);
      if state.Sent? { delivery := delivery.(sentAt := Some(now)); }
      rows := rows[id := delivery];
    }
  }
}
