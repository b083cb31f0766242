/**
 Which reservation is granted, read off the table: sums over its rows, the two limits, and the row that is added.
 */
module Admission {
  import opened Common
  import opened Capacity

  /** The slots of the rows that count. */
  function Total(rs: seq<Reservation>, counts: Reservation -> bool): nat {
    if rs == [] then 0
    else Total(rs[..|rs| - 1], counts) + (if counts(rs[|rs| - 1]) then rs[|rs| - 1].slots else 0)
  }

  /** `Total` is the sum: nothing for no row, a row's own slots, and the parts together. */
  lemma {:induction false} TotalIsTheSum(a: seq<Reservation>, b: seq<Reservation>, r: Reservation,
                                         counts: Reservation -> bool)
    ensures Total([], counts) == 0 && Total([r], counts) == (if counts(r) then r.slots else 0)
    ensures Total(a + b, counts) == Total(a, counts) + Total(b, counts)
    decreases |b|
  {
    assert [r][..0] == [];
    if b == [] {
      assert a + b == a;
    } else {
      assert (a + b)[..|a + b| - 1] == a + b[..|b| - 1];
      TotalIsTheSum(a, b[..|b| - 1], r, counts);
    }
  }

  /** The slots the conversation has reserved since 24 hours before `now`. */
  function ConversationTotal(rs: seq<Reservation>, conversation: nat, now: int): nat {
    Total(rs, (r: Reservation) => r.source.ForDecision? && r.source.conversation == conversation
                                  && r.reservedAt >= now - 86_400_000_000)
  }

  /** The slots the workspace has reserved on a local date, for replies and scheduled contacts alike. */
  function DayTotal(rs: seq<Reservation>, workspace: nat, date: int): nat {
    Total(rs, (r: Reservation) => r.workspace == workspace && r.localDate == date)
  }

  lemma {:induction false} SinceIsTotal(rs: seq<Reservation>, conversation: nat, now: int)
    ensures SlotsSince(rs, conversation, now - 24 * HOUR) == ConversationTotal(rs, conversation, now)
  {
    if rs != [] { SinceIsTotal(rs[..|rs| - 1], conversation, now); }
  }

  lemma {:induction false} OnDayIsTotal(rs: seq<Reservation>, workspace: nat, date: int)
    ensures SlotsOnDay(rs, workspace, date) == DayTotal(rs, workspace, date)
  {
    if rs != [] { OnDayIsTotal(rs[..|rs| - 1], workspace, date); }
  }

  /** The slots of a conversation in a stretch of time, both ends included. */
  function WindowTotal(rs: seq<Reservation>, conversation: nat, from: int, to: int): nat {
    Total(rs, (r: Reservation) => r.source.ForDecision? && r.source.conversation == conversation
                                  && from <= r.reservedAt && r.reservedAt <= to)
  }

  /** The sliding window is measured by the rows themselves. */
  lemma {:induction false} WindowIsTotal(rs: seq<Reservation>, conversation: nat, from: int, to: int)
    ensures SlotsInWindow(rs, conversation, from, to) == WindowTotal(rs, conversation, from, to)
  {
    if rs != [] { WindowIsTotal(rs[..|rs| - 1], conversation, from, to); }
  }

  predicate HasDecision(rs: seq<Reservation>, inbound: nat) {
    exists k :: 0 <= k < |rs| && rs[k].source.ForDecision? && rs[k].source.inbound == inbound
  }

  predicate HasAttempt(rs: seq<Reservation>, attempt: nat) {
    exists k :: 0 <= k < |rs| && rs[k].source.ForAttempt? && rs[k].source.attempt == attempt
  }

  /** No two rows of one decision or of one attempt. */
  ghost predicate Unique(rs: seq<Reservation>) {
    forall j, k :: 0 <= j < k < |rs| ==>
      && !(rs[j].source.ForDecision? && rs[k].source.ForDecision? && rs[j].source.inbound == rs[k].source.inbound)
      && !(rs[j].source.ForAttempt? && rs[k].source.ForAttempt? && rs[j].source.attempt == rs[k].source.attempt)
  }

  lemma UniqueIsOnePerSource(rs: seq<Reservation>)
    ensures Unique(rs) <==> OnePerSource(rs)
  {
  }

  /** A decision without reservation gets one if and only if its slots still fit into the conversation's 24 hours and
      into the workspace's day; the new row says for whom, when, on which day and how much. */
  lemma DecisionIsAdmittedExactly(rs: seq<Reservation>, limits: Limits, workspace: nat, inbound: nat, conversation: nat,
                                  slots: nat, now: int)
    requires !HasDecision(rs, inbound)
    ensures var r := ReserveForDecision(rs, limits, workspace, inbound, conversation, slots, now);
            && (r.Some? <==>
                  && ConversationTotal(rs, conversation, now) + slots <= limits.conversation
                  && DayTotal(rs, workspace, LocalDate(now)) + slots <= limits.workspace)
            && (r.Some? ==> r.value == rs + [Reservation(workspace, ForDecision(inbound, conversation), now,
                                                         LocalDate(now), slots)])
  {
    FoundIsInTable(rs, ForDecision(inbound, conversation));
    SinceIsTotal(rs, conversation, now);
    OnDayIsTotal(rs, workspace, LocalDate(now));
  }

  /** A decision with a reservation keeps it if and only if it asks for the same number of slots; no limit is looked at
      again and no row is added. */
  lemma DecisionIsKeptExactly(rs: seq<Reservation>, limits: Limits, workspace: nat, inbound: nat, conversation: nat,
                              slots: nat, now: int, k: nat)
    requires Unique(rs) && k < |rs| && rs[k].source.ForDecision? && rs[k].source.inbound == inbound
    ensures ReserveForDecision(rs, limits, workspace, inbound, conversation, slots, now)
            == if rs[k].slots == slots then Some(rs) else None
  {
    FoundIsInTable(rs, ForDecision(inbound, conversation));
  }

  /** A decision's request, whether it holds a reservation or not. */
  predicate Admits(rs: seq<Reservation>, limits: Limits, workspace: nat, inbound: nat, conversation: nat, slots: nat,
                   now: int) {
    if HasDecision(rs, inbound) then
      forall k :: 0 <= k < |rs| && rs[k].source.ForDecision? && rs[k].source.inbound == inbound ==> rs[k].slots == slots
    else
      && ConversationTotal(rs, conversation, now) + slots <= limits.conversation
      && DayTotal(rs, workspace, LocalDate(now)) + slots <= limits.workspace
  }

  function WithDecision(rs: seq<Reservation>, workspace: nat, inbound: nat, conversation: nat, slots: nat, now: int):
      seq<Reservation> {
    if HasDecision(rs, inbound) then rs
    else rs + [Reservation(workspace, ForDecision(inbound, conversation), now, LocalDate(now), slots)]
  }

  lemma DecisionExactly(rs: seq<Reservation>, limits: Limits, workspace: nat, inbound: nat, conversation: nat,
                        slots: nat, now: int)
    requires Unique(rs)
    ensures ReserveForDecision(rs, limits, workspace, inbound, conversation, slots, now)
            == if Admits(rs, limits, workspace, inbound, conversation, slots, now)
               then Some(WithDecision(rs, workspace, inbound, conversation, slots, now)) else None
  {
    if HasDecision(rs, inbound) {
      var k :| 0 <= k < |rs| && rs[k].source.ForDecision? && rs[k].source.inbound == inbound;
      DecisionIsKeptExactly(rs, limits, workspace, inbound, conversation, slots, now, k);
    } else {
      DecisionIsAdmittedExactly(rs, limits, workspace, inbound, conversation, slots, now);
    }
  }

  /** The same for an attempt: one slot of the day, once. */
  lemma AttemptIsAdmittedExactly(rs: seq<Reservation>, limits: Limits, workspace: nat, attempt: nat, now: int)
    ensures var r := ReserveForAttempt(rs, limits, workspace, attempt, now);
            && (r.Some? <==> HasAttempt(rs, attempt) || DayTotal(rs, workspace, LocalDate(now)) + 1 <= limits.workspace)
            && (r.Some? ==>
                  r.value == (if HasAttempt(rs, attempt) then rs
                              else rs + [Reservation(workspace, ForAttempt(attempt), now, LocalDate(now), 1)]))
  {
    FoundIsInTable(rs, ForAttempt(attempt));
    OnDayIsTotal(rs, workspace, LocalDate(now));
  }

  /** The reservation a delivery looks for, in a table without duplicates. */
  lemma FoundExactly(rs: seq<Reservation>, inbound: nat, conversation: nat, attempt: nat)
    requires Unique(rs)
    ensures FindReservation(rs, ForDecision(inbound, conversation)).Some? <==> HasDecision(rs, inbound)
    ensures forall k :: 0 <= k < |rs| && rs[k].source.ForDecision? && rs[k].source.inbound == inbound ==>
              FindReservation(rs, ForDecision(inbound, conversation)) == Some(rs[k])
    ensures FindReservation(rs, ForAttempt(attempt)).Some? <==> HasAttempt(rs, attempt)
  {
    FoundIsInTable(rs, ForDecision(inbound, conversation));
    FoundIsInTable(rs, ForAttempt(attempt));
  }

  // ---------- whole histories ----------

  /** What one request of a history is granted. */
  function Granted(rs: seq<Reservation>, limits: Limits, op: ReserveOp): Option<seq<Reservation>> {
    match op
    case ByDecision(ws, i, c, slots, now) => ReserveForDecision(rs, limits, ws, i, c, slots, now)
    case ByAttempt(ws, a, now) => ReserveForAttempt(rs, limits, ws, a, now)
  }

  /** A history is its requests in order: each granted one leaves the table that its admission says, each refused one
      leaves it as it was. */
  lemma HistoryIsOneByOne(limits: Limits, ops: seq<ReserveOp>, op: ReserveOp)
    ensures ReserveAll(limits, []) == []
    ensures var rs := ReserveAll(limits, ops);
            ReserveAll(limits, ops + [op])
            == if Granted(rs, limits, op).Some? then Granted(rs, limits, op).value else rs
  {
    assert (ops + [op])[..|ops|] == ops;
  }
}
