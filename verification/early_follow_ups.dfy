/**
 Why `KeepsSpacing` excepts a snooze and an overtaken completion: two histories in which one such step, and nothing
 else out of order, lets a second message leave too early.
 */
module EarlyFollowUps {
  import opened Common
  import opened Scheduled
  import opened FollowUpSpacing

  // ---------- histories with one excused step ----------

  datatype Path = Start | Then(before: Path, mid: World, op: Op)

  /** An enabled step that moves no due date under an open hand-off and, unless it is the excused one, keeps the
      spacing. */
  ghost predicate Goes(w: World, op: Op, w': World, excused: Op) {
    WellFormed(w.book) && Enabled(w, op) && Step(w, op) == w' && Undisturbed(w, op)
    && (op == excused || KeepsSpacing(w, op))
  }

  ghost predicate Leads(w: World, path: Path, end: World, excused: Op) {
    match path
    case Start => w == end
    case Then(before, mid, op) => Leads(w, before, mid, excused) && Goes(mid, op, end, excused)
  }

  lemma Extend(w: World, before: Path, mid: World, op: Op, end: World, excused: Op) returns (path: Path)
    requires Leads(w, before, mid, excused) && Goes(mid, op, end, excused)
    ensures Leads(w, path, end, excused)
  {
    path := Then(before, mid, op);
  }

  // ---------- one contact, one weekly topic ----------

  const WEEKLY := Topic(7, Some(1), true, true)
  const FINE := ApprovalChecks(true, false, true)
  const NOTHING := World(Book([WEEKLY], [], map[]), 0)

  function At(plan: Plan, rows: map<Key, Attempt>, clock: int): World {
    World(Book([WEEKLY], [plan], rows), clock)
  }

  const FRESH_ROW := Attempt(Due, None, None)
  const QUEUED_ROW := Attempt(Authorized, Some(Outbound(Queued, None, None)), None)

  function FlyingRow(at: int): Attempt {
    Attempt(Authorized, Some(Outbound(Sending, Some(at), None)), None)
  }

  function LandedRow(at: int): Attempt {
    Attempt(Authorized, Some(Outbound(Sent, Some(at), Some(at))), None)
  }

  function RecordedRow(at: int): Attempt {
    Attempt(AttemptSent, Some(Outbound(Sent, Some(at), Some(at))), Some(at))
  }

  predicate Ready(plan: Plan, due: int, clock: int) {
    plan.topic == 0 && plan.state.Active? && plan.nextDue == Some(due) && due <= clock && !Snoozing(plan, clock)
  }

  predicate Settled(rows: map<Key, Attempt>) {
    forall k :: k in rows ==> k.plan == 0 && !Open(rows[k])
  }

  lemma Creating(plan: Plan, rows: map<Key, Attempt>, due: int, clock: int, excused: Op)
    requires Ready(plan, due, clock) && Settled(rows) && Key(0, due) !in rows
    ensures Goes(At(plan, rows, clock), DoCreateAttempt(0), At(plan, rows[Key(0, due) := FRESH_ROW], clock), excused)
  {
  }

  lemma Drafting(plan: Plan, rows: map<Key, Attempt>, due: int, clock: int, excused: Op)
    requires Ready(plan, due, clock) && Settled(rows) && Key(0, due) !in rows
    ensures Goes(At(plan, rows[Key(0, due) := FRESH_ROW], clock), DoDraft(Key(0, due)),
                 At(plan, rows[Key(0, due) := QUEUED_ROW], clock), excused)
  {
    assert rows[Key(0, due) := FRESH_ROW][Key(0, due) := QUEUED_ROW] == rows[Key(0, due) := QUEUED_ROW];
  }

  lemma HandingOver(plan: Plan, rows: map<Key, Attempt>, due: int, clock: int, excused: Op)
    requires Ready(plan, due, clock) && Settled(rows) && Key(0, due) !in rows
    ensures Goes(At(plan, rows[Key(0, due) := QUEUED_ROW], clock), HandOver(Key(0, due)),
                 At(plan, rows[Key(0, due) := FlyingRow(clock)], clock), excused)
  {
    var k := Key(0, due);
    assert rows[k := QUEUED_ROW][k := FlyingRow(clock)] == rows[k := FlyingRow(clock)];
  }

  lemma Confirming(plan: Plan, rows: map<Key, Attempt>, due: int, clock: int, excused: Op)
    requires Ready(plan, due, clock) && Settled(rows) && Key(0, due) !in rows
    ensures Goes(At(plan, rows[Key(0, due) := FlyingRow(clock)], clock), Confirm(Key(0, due)),
                 At(plan, rows[Key(0, due) := LandedRow(clock)], clock), excused)
  {
    var k := Key(0, due);
    assert rows[k := FlyingRow(clock)][k := LandedRow(clock)] == rows[k := LandedRow(clock)];
  }

  /** A due plan sends its next message. */
  lemma SendNext(path: Path, plan: Plan, rows: map<Key, Attempt>, due: int, clock: int, excused: Op)
    returns (longer: Path)
    requires Leads(NOTHING, path, At(plan, rows, clock), excused)
    requires Ready(plan, due, clock) && Settled(rows) && Key(0, due) !in rows
    ensures Leads(NOTHING, longer, At(plan, rows[Key(0, due) := LandedRow(clock)], clock), excused)
  {
    hide Goes, At, FlyingRow, LandedRow;
    var k := Key(0, due);
    Creating(plan, rows, due, clock, excused);
    Drafting(plan, rows, due, clock, excused);
    HandingOver(plan, rows, due, clock, excused);
    Confirming(plan, rows, due, clock, excused);
    longer := Extend(NOTHING, path, At(plan, rows, clock), DoCreateAttempt(0),
                     At(plan, rows[k := FRESH_ROW], clock), excused);
    longer := Extend(NOTHING, longer, At(plan, rows[k := FRESH_ROW], clock), DoDraft(k),
                     At(plan, rows[k := QUEUED_ROW], clock), excused);
    longer := Extend(NOTHING, longer, At(plan, rows[k := QUEUED_ROW], clock), HandOver(k),
                     At(plan, rows[k := FlyingRow(clock)], clock), excused);
    longer := Extend(NOTHING, longer, At(plan, rows[k := FlyingRow(clock)], clock), Confirm(k),
                     At(plan, rows[k := LandedRow(clock)], clock), excused);
  }

  function Completed(plan: Plan, sentAt: int): Plan {
    plan.(lastSent := Some(sentAt), snoozedUntil := None, nextDue := Some(sentAt + 7 * DAY))
  }

  /** Completing a message sent at `at`, for the first time or again. */
  lemma Completing(plan: Plan, rows: map<Key, Attempt>, k: Key, at: int, clock: int, excused: Op)
    requires plan.topic == 0 && k.plan == 0 && 1 <= at
    requires k in rows && rows[k] in {LandedRow(at), RecordedRow(at)} && Settled(rows - {k})
    requires excused == DoComplete(k, true) || SentBy(plan.lastSent, Some(at))
    ensures Goes(At(plan, rows, clock), DoComplete(k, true), At(Completed(plan, at), rows[k := RecordedRow(at)], clock),
                 excused)
  {
    assert DueAfterSend(WEEKLY, at) == at + 7 * DAY;
    assert forall j :: j in rows && j != k ==> j in rows - {k};
  }

  // ---------- the common beginning: one message sent at instant 1 ----------

  const APPROVED := Plan(0, 0, Active, Some(1), None, None, None)
  const SENT_ONCE := Plan(0, 0, Active, Some(1 + 7 * DAY), None, None, Some(1))

  lemma Beginning(excused: Op)
    ensures Goes(NOTHING, DoApprove(0, 0, true, FINE), At(APPROVED, map[], 0), excused)
    ensures Goes(At(APPROVED, map[], 0), Tick(1), At(APPROVED, map[], 1), excused)
  {
    assert NextDueForApproval(NewPlan(0, 0, Active), WEEKLY, 0) == 1;
  }

  lemma SentOnce(excused: Op) returns (path: Path)
    ensures Leads(NOTHING, path, At(SENT_ONCE, map[Key(0, 1) := RecordedRow(1)], 1), excused)
  {
    hide Goes;
    var one := Key(0, 1);
    var none: map<Key, Attempt> := map[];
    Beginning(excused);
    path := Extend(NOTHING, Start, NOTHING, DoApprove(0, 0, true, FINE), At(APPROVED, none, 0), excused);
    path := Extend(NOTHING, path, At(APPROVED, none, 0), Tick(1), At(APPROVED, none, 1), excused);
    path := SendNext(path, APPROVED, none, 1, 1, excused);
    Completing(APPROVED, none[one := LandedRow(1)], one, 1, 1, excused);
    assert none[one := LandedRow(1)][one := RecordedRow(1)] == map[one := RecordedRow(1)];
    path := Extend(NOTHING, path, At(APPROVED, none[one := LandedRow(1)], 1), DoComplete(one, true),
                   At(SENT_ONCE, map[one := RecordedRow(1)], 1), excused);
  }

  ghost predicate BothSent(w: World, j: Key, at: int, k: Key, at': int) {
    j in w.book.attempts && k in w.book.attempts && TwoSends(w.book.attempts, j, k)
    && w.book.attempts[j].outbound.value.sentAt == Some(at) && w.book.attempts[k].outbound.value.sentAt == Some(at')
  }

  // ---------- a snooze ----------

  const SNOOZED := Plan(0, 0, Active, Some(2), Some(2), None, Some(1))

  lemma SnoozedEarly(rows: map<Key, Attempt>)
    requires rows == map[Key(0, 1) := RecordedRow(1)]
    ensures Goes(At(SENT_ONCE, rows, 1), DoSnooze(0, 2), At(SNOOZED, rows, 1), DoSnooze(0, 2))
    ensures Goes(At(SNOOZED, rows, 1), Tick(2), At(SNOOZED, rows, 2), DoSnooze(0, 2))
  {
    assert CancelOpen(rows, 0, None) == rows;
  }

  /** A snooze that ends early, and no other step out of order, lets the next message leave a microsecond after the
      last one. */
  lemma SnoozeMaySendEarly()
    ensures exists path, end ::
              Leads(NOTHING, path, end, DoSnooze(0, 2)) && BothSent(end, Key(0, 1), 1, Key(0, 2), 2)
  {
    hide Goes, Leads;
    var rows := map[Key(0, 1) := RecordedRow(1)];
    var excused := DoSnooze(0, 2);
    var path := SentOnce(excused);
    SnoozedEarly(rows);
    path := Extend(NOTHING, path, At(SENT_ONCE, rows, 1), excused, At(SNOOZED, rows, 1), excused);
    path := Extend(NOTHING, path, At(SNOOZED, rows, 1), Tick(2), At(SNOOZED, rows, 2), excused);
    path := SendNext(path, SNOOZED, rows, 2, 2, excused);
    assert BothSent(At(SNOOZED, rows[Key(0, 2) := LandedRow(2)], 2), Key(0, 1), 1, Key(0, 2), 2);
  }

  // ---------- a completion that comes again ----------

  const EIGHTH_DAY: int := 1 + 8 * DAY
  const SEVENTH_DAY: int := 1 + 7 * DAY
  const MOVED := Plan(0, 0, Active, Some(EIGHTH_DAY), None, Some(1 + DAY), Some(1))
  const SENT_TWICE := Completed(MOVED, EIGHTH_DAY)
  const SET_BACK := Completed(SENT_TWICE, 1)
  const AGAIN := DoComplete(Key(0, 1), true)

  lemma Waiting(plan: Plan, rows: map<Key, Attempt>, clock: int, later: int, excused: Op)
    requires plan.topic == 0 && Settled(rows) && clock <= later
    ensures Goes(At(plan, rows, clock), Tick(later), At(plan, rows, later), excused)
  {
  }

  lemma Answered(rows: map<Key, Attempt>)
    requires rows == map[Key(0, 1) := RecordedRow(1)]
    ensures Goes(At(SENT_ONCE, rows, 1 + DAY), DoInteraction(0, 1 + DAY), At(MOVED, rows, 1 + DAY), AGAIN)
  {
    assert DueAfterInteraction(SENT_ONCE, 7, 1 + DAY) == EIGHTH_DAY;
    hide DueAfterInteraction;
    assert Step(At(SENT_ONCE, rows, 1 + DAY), DoInteraction(0, 1 + DAY)).book.attempts == rows;
  }

  lemma SentTwice() returns (path: Path)
    ensures var rows := map[Key(0, 1) := RecordedRow(1), Key(0, EIGHTH_DAY) := RecordedRow(EIGHTH_DAY)];
            Leads(NOTHING, path, At(SENT_TWICE, rows, EIGHTH_DAY), AGAIN)
  {
    hide Goes, Leads;
    var rows, two := map[Key(0, 1) := RecordedRow(1)], Key(0, EIGHTH_DAY);
    path := SentOnce(AGAIN);
    Waiting(SENT_ONCE, rows, 1, 1 + DAY, AGAIN);
    Answered(rows);
    Waiting(MOVED, rows, 1 + DAY, EIGHTH_DAY, AGAIN);
    path := Extend(NOTHING, path, At(SENT_ONCE, rows, 1), Tick(1 + DAY), At(SENT_ONCE, rows, 1 + DAY), AGAIN);
    path := Extend(NOTHING, path, At(SENT_ONCE, rows, 1 + DAY), DoInteraction(0, 1 + DAY),
                   At(MOVED, rows, 1 + DAY), AGAIN);
    path := Extend(NOTHING, path, At(MOVED, rows, 1 + DAY), Tick(EIGHTH_DAY), At(MOVED, rows, EIGHTH_DAY), AGAIN);
    path := SendNext(path, MOVED, rows, EIGHTH_DAY, EIGHTH_DAY, AGAIN);
    var landed := rows[two := LandedRow(EIGHTH_DAY)];
    Completing(MOVED, landed, two, EIGHTH_DAY, EIGHTH_DAY, AGAIN);
    assert landed[two := RecordedRow(EIGHTH_DAY)] == map[Key(0, 1) := RecordedRow(1), two := RecordedRow(EIGHTH_DAY)];
    path := Extend(NOTHING, path, At(MOVED, landed, EIGHTH_DAY), DoComplete(two, true),
                   At(SENT_TWICE, landed[two := RecordedRow(EIGHTH_DAY)], EIGHTH_DAY), AGAIN);
  }

  /** The first message is completed once more after the second, by a duplicate delivery that finds it sent: the plan
      forgets the second, and a third leaves in the same instant. No other step is out of order. */
  lemma LateCompletionMaySendEarly()
    ensures exists path, end ::
              Leads(NOTHING, path, end, AGAIN)
              && BothSent(end, Key(0, EIGHTH_DAY), EIGHTH_DAY, Key(0, SEVENTH_DAY), EIGHTH_DAY)
  {
    hide Goes, Leads;
    var one, two, three := Key(0, 1), Key(0, EIGHTH_DAY), Key(0, SEVENTH_DAY);
    var rows := map[one := RecordedRow(1), two := RecordedRow(EIGHTH_DAY)];
    var path := SentTwice();
    Completing(SENT_TWICE, rows, one, 1, EIGHTH_DAY, AGAIN);
    assert rows[one := RecordedRow(1)] == rows;
    path := Extend(NOTHING, path, At(SENT_TWICE, rows, EIGHTH_DAY), AGAIN, At(SET_BACK, rows, EIGHTH_DAY), AGAIN);
    path := SendNext(path, SET_BACK, rows, SEVENTH_DAY, EIGHTH_DAY, AGAIN);
    assert BothSent(At(SET_BACK, rows[three := LandedRow(EIGHTH_DAY)], EIGHTH_DAY), two, EIGHTH_DAY, three, EIGHTH_DAY);
  }
}
