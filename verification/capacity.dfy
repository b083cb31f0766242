/**
 Capacity reserved before an automatic effect (`_reserve_rate_capacity` in `automation/execution.py`,
 `_reserve_scheduled_automatic_capacity` in `automation/scheduled.py`).

 The reservation table only grows, so it is a sequence in insertion order. Insertion order is all the sliding
 window needs: the timestamps themselves may arrive in any order.
 */
module Capacity {
  import opened Common

  datatype Source = ForDecision(inbound: nat, conversation: nat) | ForAttempt(attempt: nat)

  datatype Reservation = Reservation(workspace: nat, source: Source, reservedAt: int, localDate: int, slots: nat)

  datatype Limits = Limits(conversation: nat, workspace: nat)

  predicate OnConversation(r: Reservation, conversation: nat) {
    r.source.ForDecision? && r.source.conversation == conversation
  }

  predicate IsFor(r: Reservation, s: Source) {
    match s
    case ForDecision(i, _) => r.source.ForDecision? && r.source.inbound == i
    case ForAttempt(a) => r.source.ForAttempt? && r.source.attempt == a
  }

  // ---------- sums over the table ----------

  /** Slots of the conversation reserved at or after `from`, future timestamps included. */
  function SlotsSince(rs: seq<Reservation>, conversation: nat, from: int): nat {
    if rs == [] then 0
    else
      var r := rs[|rs| - 1];
      SlotsSince(rs[..|rs| - 1], conversation, from)
      + (if OnConversation(r, conversation) && r.reservedAt >= from then r.slots else 0)
  }

  /** Slots of the conversation reserved in the closed window `[from, to]`. */
  function SlotsInWindow(rs: seq<Reservation>, conversation: nat, from: int, to: int): nat {
    if rs == [] then 0
    else
      var r := rs[|rs| - 1];
      SlotsInWindow(rs[..|rs| - 1], conversation, from, to)
      + (if OnConversation(r, conversation) && from <= r.reservedAt <= to then r.slots else 0)
  }

  /** Slots of the workspace on one local date, whatever asked for them. */
  function SlotsOnDay(rs: seq<Reservation>, workspace: nat, date: int): nat {
    if rs == [] then 0
    else
      var r := rs[|rs| - 1];
      SlotsOnDay(rs[..|rs| - 1], workspace, date)
      + (if r.workspace == workspace && r.localDate == date then r.slots else 0)
  }

  function FindReservation(rs: seq<Reservation>, s: Source): Option<Reservation> {
    if rs == [] then None
    else if IsFor(rs[|rs| - 1], s) then Some(rs[|rs| - 1])
    else FindReservation(rs[..|rs| - 1], s)
  }

  // ---------- the two reservation transactions ----------

  /** `_reserve_rate_capacity`: `None` is a refusal. A decision that already holds a reservation keeps it, and is
      refused when the slot count differs. */
  function ReserveForDecision(rs: seq<Reservation>, limits: Limits, workspace: nat, inbound: nat, conversation: nat,
                              slots: nat, now: int): Option<seq<Reservation>> {
    var source := ForDecision(inbound, conversation);
    match FindReservation(rs, source)
    case Some(existing) => if existing.slots == slots then Some(rs) else None
    case None =>
      if SlotsSince(rs, conversation, now - 24 * HOUR) + slots > limits.conversation then None
      else if SlotsOnDay(rs, workspace, LocalDate(now)) + slots > limits.workspace then None
      else Some(rs + [Reservation(workspace, source, now, LocalDate(now), slots)])
  }

  /** `_reserve_scheduled_automatic_capacity`: one slot of the same workspace day. */
  function ReserveForAttempt(rs: seq<Reservation>, limits: Limits, workspace: nat, attempt: nat, now: int):
      Option<seq<Reservation>> {
    if FindReservation(rs, ForAttempt(attempt)).Some? then Some(rs)
    else if SlotsOnDay(rs, workspace, LocalDate(now)) >= limits.workspace then None
    else Some(rs + [Reservation(workspace, ForAttempt(attempt), now, LocalDate(now), 1)])
  }

  // ---------- whole histories of reservations ----------

  datatype ReserveOp =
    | ByDecision(workspace: nat, inbound: nat, conversation: nat, slots: nat, now: int)
    | ByAttempt(workspace: nat, attempt: nat, now: int)

  function Reserve(rs: seq<Reservation>, limits: Limits, op: ReserveOp): seq<Reservation> {
    var result := match op
      case ByDecision(ws, i, c, slots, now) => ReserveForDecision(rs, limits, ws, i, c, slots, now)
      case ByAttempt(ws, a, now) => ReserveForAttempt(rs, limits, ws, a, now);
    if result.Some? then result.value else rs
  }

  function ReserveAll(limits: Limits, ops: seq<ReserveOp>): seq<Reservation> {
    if ops == [] then [] else Reserve(ReserveAll(limits, ops[..|ops| - 1]), limits, ops[|ops| - 1])
  }

  /** What the two checks leave behind about a row and the rows before it. */
  ghost predicate Fits(before: seq<Reservation>, r: Reservation, limits: Limits) {
    && SlotsOnDay(before, r.workspace, r.localDate) + r.slots <= limits.workspace
    && (r.source.ForDecision? ==>
          SlotsSince(before, r.source.conversation, r.reservedAt - 24 * HOUR) + r.slots <= limits.conversation)
  }

  ghost predicate Admitted(rs: seq<Reservation>, limits: Limits) {
    forall k :: 0 <= k < |rs| ==> Fits(rs[..k], rs[k], limits)
  }

  /** At most one reservation per decision and per attempt. */
  ghost predicate OnePerSource(rs: seq<Reservation>) {
    forall j, k :: 0 <= j < k < |rs| ==> !IsFor(rs[j], rs[k].source)
  }

  lemma {:induction false} FoundIsInTable(rs: seq<Reservation>, s: Source)
    ensures FindReservation(rs, s).Some? ==>
              exists k :: 0 <= k < |rs| && rs[k] == FindReservation(rs, s).value && IsFor(rs[k], s)
    ensures FindReservation(rs, s).None? ==> forall k :: 0 <= k < |rs| ==> !IsFor(rs[k], s)
  {
    if rs != [] && !IsFor(rs[|rs| - 1], s) {
      FoundIsInTable(rs[..|rs| - 1], s);
      if FindReservation(rs, s).Some? {
        var k :| 0 <= k < |rs| - 1 && rs[..|rs| - 1][k] == FindReservation(rs, s).value
                 && IsFor(rs[..|rs| - 1][k], s);
        assert rs[k] == FindReservation(rs, s).value;
      }
    }
  }

  lemma AppendAdmitted(rs: seq<Reservation>, limits: Limits, r: Reservation)
    requires Admitted(rs, limits) && OnePerSource(rs)
    requires Fits(rs, r, limits)
    requires forall k :: 0 <= k < |rs| ==> !IsFor(rs[k], r.source)
    ensures Admitted(rs + [r], limits) && OnePerSource(rs + [r])
  {
    var rs' := rs + [r];
    forall k | 0 <= k < |rs'| ensures Fits(rs'[..k], rs'[k], limits) {
      assert rs'[..k] == rs[..k];
      assert rs[..|rs|] == rs;
    }
  }

  lemma ReserveKeepsAdmitted(rs: seq<Reservation>, limits: Limits, op: ReserveOp)
    requires Admitted(rs, limits) && OnePerSource(rs)
    ensures Admitted(Reserve(rs, limits, op), limits) && OnePerSource(Reserve(rs, limits, op))
  {
    if Reserve(rs, limits, op) != rs {
      match op
      case ByDecision(ws, i, c, slots, now) =>
        FoundIsInTable(rs, ForDecision(i, c));
        AppendAdmitted(rs, limits, Reservation(ws, ForDecision(i, c), now, LocalDate(now), slots));
      case ByAttempt(ws, a, now) =>
        FoundIsInTable(rs, ForAttempt(a));
        AppendAdmitted(rs, limits, Reservation(ws, ForAttempt(a), now, LocalDate(now), 1));
    }
  }

  lemma {:induction false} ReserveAllAdmitted(limits: Limits, ops: seq<ReserveOp>)
    ensures Admitted(ReserveAll(limits, ops), limits) && OnePerSource(ReserveAll(limits, ops))
  {
    if ops != [] {
      ReserveAllAdmitted(limits, ops[..|ops| - 1]);
      ReserveKeepsAdmitted(ReserveAll(limits, ops[..|ops| - 1]), limits, ops[|ops| - 1]);
    }
  }

  lemma {:induction false} WindowWithinSince(rs: seq<Reservation>, conversation: nat, from: int, to: int, since: int)
    requires since <= from
    ensures SlotsInWindow(rs, conversation, from, to) <= SlotsSince(rs, conversation, since)
  {
    if rs != [] { WindowWithinSince(rs[..|rs| - 1], conversation, from, to, since); }
  }

  lemma AdmittedPrefix(rs: seq<Reservation>, limits: Limits, n: nat)
    requires Admitted(rs, limits) && n <= |rs|
    ensures Admitted(rs[..n], limits)
  {
    forall k | 0 <= k < n ensures rs[..n][..k] == rs[..k] {}
  }

  lemma {:induction false} AdmittedWindow(rs: seq<Reservation>, limits: Limits, conversation: nat, from: int)
    requires Admitted(rs, limits)
    ensures SlotsInWindow(rs, conversation, from, from + 24 * HOUR) <= limits.conversation
  {
    if rs != [] {
      var n := |rs| - 1;
      var r := rs[n];
      AdmittedPrefix(rs, limits, n);
      assert Fits(rs[..n], r, limits);
      if OnConversation(r, conversation) && from <= r.reservedAt <= from + 24 * HOUR {
        WindowWithinSince(rs[..n], conversation, from, from + 24 * HOUR, r.reservedAt - 24 * HOUR);
      } else {
        AdmittedWindow(rs[..n], limits, conversation, from);
      }
    }
  }

  lemma {:induction false} AdmittedDay(rs: seq<Reservation>, limits: Limits, workspace: nat, date: int)
    requires Admitted(rs, limits)
    ensures SlotsOnDay(rs, workspace, date) <= limits.workspace
  {
    if rs != [] {
      AdmittedPrefix(rs, limits, |rs| - 1);
      AdmittedDay(rs[..|rs| - 1], limits, workspace, date);
      assert Fits(rs[..|rs| - 1], rs[|rs| - 1], limits);
    }
  }

  /** A true sliding window: in every closed 24 hour window one conversation holds at most its limit of slots,
      whatever order the timestamps arrived in. */
  lemma {:induction false} ConversationSlidingWindow(limits: Limits, ops: seq<ReserveOp>, conversation: nat, from: int)
    ensures SlotsInWindow(ReserveAll(limits, ops), conversation, from, from + 24 * HOUR) <= limits.conversation
  {
    ReserveAllAdmitted(limits, ops);
    AdmittedWindow(ReserveAll(limits, ops), limits, conversation, from);
  }

  /** Replies and automatic scheduled contacts spend one daily budget. */
  lemma {:induction false} SharedDailyBudget(limits: Limits, ops: seq<ReserveOp>, workspace: nat, date: int)
    ensures SlotsOnDay(ReserveAll(limits, ops), workspace, date) <= limits.workspace
  {
    ReserveAllAdmitted(limits, ops);
    AdmittedDay(ReserveAll(limits, ops), limits, workspace, date);
  }

  // ---------- the table in its own, imperative form ----------

  class ReservationTable {
    var rows: seq<Reservation>
    const limits: Limits

    constructor (limits: Limits)
      ensures rows == [] && this.limits == limits
    {
      this.limits := limits;
      rows := [];
    }

    method ReserveRateCapacity(workspace: nat, inbound: nat, conversation: nat, slots: nat, now: int)
      returns (ok: bool)
      modifies this
      ensures ok == ReserveForDecision(old(rows), limits, workspace, inbound, conversation, slots, now).Some?
      ensures rows == Reserve(old(rows), limits, ByDecision(workspace, inbound, conversation, slots, now))
      ensures (forall k :: 0 <= k < |old(rows)| ==> !IsFor(old(rows)[k], ForDecision(inbound, conversation))) ==>
                && (ok <==> && SlotsSince(old(rows), conversation, now - 24 * HOUR) + slots <= limits.conversation
                            && SlotsOnDay(old(rows), workspace, LocalDate(now)) + slots <= limits.workspace)
                && rows == old(rows) + if ok then [Reservation(workspace, ForDecision(inbound, conversation), now,
                                                               LocalDate(now), slots)] else []
      ensures Admitted(old(rows), limits) && OnePerSource(old(rows)) ==> Admitted(rows, limits) && OnePerSource(rows)
    {
      if Admitted(rows, limits) && OnePerSource(rows) {
        ReserveKeepsAdmitted(rows, limits, ByDecision(workspace, inbound, conversation, slots, now));
      }
      FoundIsInTable(rows, ForDecision(inbound, conversation));
      var existing := FindReservation(rows, ForDecision(inbound, conversation));
      if existing.Some? { return existing.value.slots == slots; }
      var rollingStart := now - 24 * HOUR;
      var localDate := LocalDate(now);
      if SlotsSince(rows, conversation, rollingStart) + slots > limits.conversation { return false; }
      if SlotsOnDay(rows, workspace, localDate) + slots > limits.workspace { return false; }
      rows := rows + [Reservation(workspace, ForDecision(inbound, conversation), now, localDate, slots)];
      ok := true;
    }

    method ReserveScheduledCapacity(workspace: nat, attempt: nat, now: int) returns (ok: bool)
      modifies this
      ensures ok == ReserveForAttempt(old(rows), limits, workspace, attempt, now).Some?
      ensures rows == Reserve(old(rows), limits, ByAttempt(workspace, attempt, now))
      ensures (forall k :: 0 <= k < |old(rows)| ==> !IsFor(old(rows)[k], ForAttempt(attempt))) ==>
                && (ok <==> SlotsOnDay(old(rows), workspace, LocalDate(now)) + 1 <= limits.workspace)
                && rows == old(rows) + if ok then [Reservation(workspace, ForAttempt(attempt), now, LocalDate(now), 1)]
                                       else []
      ensures Admitted(old(rows), limits) && OnePerSource(old(rows)) ==> Admitted(rows, limits) && OnePerSource(rows)
    {
      if Admitted(rows, limits) && OnePerSource(rows) {
        ReserveKeepsAdmitted(rows, limits, ByAttempt(workspace, attempt, now));
      }
      FoundIsInTable(rows, ForAttempt(attempt));
      if FindReservation(rows, ForAttempt(attempt)).Some? { return true; }
      var localDate := LocalDate(now);
      var used := 0;
      for k := 0 to |rows|
        invariant used == SlotsOnDay(rows[..k], workspace, localDate)
      {
        assert rows[..k + 1][..k] == rows[..k];
        if rows[k].workspace == workspace && rows[k].localDate == localDate { used := used + rows[k].slots; }
      }
      assert rows[..|rows|] == rows;
      if used >= limits.workspace { return false; }
      rows := rows + [Reservation(workspace, ForAttempt(attempt), now, localDate, 1)];
      ok := true;
    }
  }
}
