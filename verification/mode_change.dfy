/**
 Why `Guarded` excepts a topic set to review over its messages of the day: a run in which two messages that nobody
 released leave on one local day under a limit of one.

 A scheduled message is reserved late on one day and sent on the next. Then its topic is set to review, so the gate no
 longer sees it, and a reply fills the limit once more.
 */
module ModeChange {
  import opened Common
  import opened Delivery
  import opened DeliveryRuns
  import opened DeliverySerial
  import opened RateGate
  import opened TopicModes
  import T = HumanTasks
  import C = Capacity

  /** Noon of local day 0; instant 0 still belongs to the day before. */
  const NOON: int := 12 * HOUR

  const CLEAR := SendChecks(false, true, true, true, true)
  const VISIT := Scheduled(0)
  const REPLY := Auto(AutomaticReply, 0)
  const DECIDED := Decision(0, 1, 1, "inbound", Live, Action.Reply, AutoEligible)
  const CHECKS := AuthorizeChecks(false, true, true, true, "")

  const PLAN := PlanAttempt(0, Attempt(0, 1, 0))
  const CREATE := DoCreateScheduled(0, 0, None)
  const SEND_VISIT := DoPrepare(0, VISIT, NOON, CLEAR)
  const VISIT_SENT := EndSend(0, NOON, Accepted("fresh", true))
  const TO_REVIEW := DoSetMode(0, false, NOON)
  const DECIDE := Decide(0, DECIDED)
  const AUTHORIZE := DoAuthorizeReply(0, NOON, CHECKS)
  const SEND_REPLY := DoPrepare(0, REPLY, NOON, CLEAR)
  const REPLY_SENT := EndSend(0, NOON, Accepted("inbound", true))

  const FIRST_HALF := [PLAN, CREATE, SEND_VISIT, HandOver(0), VISIT_SENT]
  const SECOND_HALF := [TO_REVIEW, DECIDE, AUTHORIZE, SEND_REPLY, HandOver(0), REPLY_SENT]

  // ---------- the worlds on the way ----------

  function Start(): World {
    World(Db(map[], map[], map[], {0}, map[], [], T.TaskStore([], {1}, map[1 := 1], {}, {}), C.Limits(3, 1)),
          map[], [], [])
  }

  function Planned(): World {
    Start().(db := Start().db.(attempts := map[0 := Attempt(0, 1, 0)]))
  }

  const VISIT_SLOT := C.Reservation(0, C.ForAttempt(0), 0, LocalDate(0), 1)
  const REPLY_SLOT := C.Reservation(0, C.ForDecision(0, 1), NOON, LocalDate(NOON), 1)

  function Created(): World {
    Planned().(db := Planned().db.(messages := map[VISIT := QueuedMessage(0)], reservations := [VISIT_SLOT]))
  }

  function VisitArmed(): World {
    Created().(db := Created().db.(messages := map[VISIT := SendingRow(QueuedMessage(0), NOON)]),
               workers := map[0 := Armed(VISIT)], started := [VISIT])
  }

  function VisitCalled(): World {
    VisitArmed().(workers := map[0 := Calling(VISIT)], history := [HandedOver(VISIT)])
  }

  const VISIT_ROW := SentRow(SendingRow(QueuedMessage(0), NOON), NOON)

  function VisitDone(): World {
    VisitCalled().(db := VisitCalled().db.(messages := map[VISIT := VISIT_ROW], threads := map["fresh" := 1]),
                   workers := map[], history := [HandedOver(VISIT), Confirmed(VISIT, true)])
  }

  function Reviewing(): World {
    VisitDone().(db := VisitDone().db.(automatic := {}))
  }

  function Decided(): World {
    Reviewing().(db := Reviewing().db.(decisions := map[0 := DECIDED]))
  }

  function Allowed(): World {
    Decided().(db := Decided().db.(decisions := map[0 := DECIDED.(state := Authorized)],
                                   messages := map[VISIT := VISIT_ROW, REPLY := QueuedMessage(NOON)],
                                   reservations := [VISIT_SLOT, REPLY_SLOT]))
  }

  function ReplyArmed(): World {
    Allowed().(db := Allowed().db.(decisions := map[0 := DECIDED.(state := Executing)],
                                   messages := map[VISIT := VISIT_ROW,
                                                   REPLY := SendingRow(QueuedMessage(NOON), NOON)]),
               workers := map[0 := Armed(REPLY)], started := [VISIT, REPLY])
  }

  function ReplyCalled(): World {
    ReplyArmed().(workers := map[0 := Calling(REPLY)], history := ReplyArmed().history + [HandedOver(REPLY)])
  }

  const REPLY_ROW := SentRow(SendingRow(QueuedMessage(NOON), NOON), NOON)

  function ReplyDone(): World {
    ReplyCalled().(db := ReplyCalled().db.(decisions := map[0 := DECIDED.(state := Completed)],
                                           messages := map[VISIT := VISIT_ROW, REPLY := REPLY_ROW]),
                   workers := map[], history := ReplyCalled().history + [Confirmed(REPLY, true)])
  }

  // ---------- the steps ----------

  lemma Dates()
    ensures LocalDate(0) == -1 && LocalDate(NOON) == 0
  {
  }

  lemma Creating()
    ensures CreateScheduled(Planned().db, 0, 0, None) == Some(Created().db)
  {
    assert C.FindReservation([], C.ForAttempt(0)).None?;
    assert C.SlotsOnDay([], 0, LocalDate(0)) == 0;
    assert C.ReserveForAttempt([], C.Limits(3, 1), 0, 0, 0).value == [VISIT_SLOT];
    assert CreateScheduled(Planned().db, 0, 0, None).value.messages == Created().db.messages;
  }

  lemma SendingVisit()
    ensures Prepare(Created().db, VISIT, NOON, CLEAR) == Effect(VisitArmed().db)
  {
    var db := Created().db;
    assert C.FindReservation(db.reservations, C.ForAttempt(0)) == Some(db.reservations[0]);
    var workspace: nat := 0;
    assert (set k | k in db.messages && k != VISIT && CountsForDay(db, k, workspace, LocalDate(NOON))) == {};
    assert ScheduledClear(db, 0, CLEAR);
    assert ScheduledOutcome(db, 0, NOON, CLEAR).Sending?;
  }

  lemma ConfirmingVisit()
    ensures ConfirmStep(VisitCalled(), VISIT, NOON, "fresh", true)
            == VisitDone().(workers := VisitCalled().workers)
  {
  }

  lemma Authorizing()
    ensures AuthorizeReply(Decided().db, 0, NOON, CHECKS) == Some(Allowed().db)
  {
    Dates();
    var db := Decided().db;
    var rs := db.reservations;
    assert rs[..0] == [];
    assert C.FindReservation(rs, C.ForDecision(0, 1)).None?;
    assert C.SlotsSince(rs, 1, NOON - 24 * HOUR) == 0;
    assert C.SlotsOnDay(rs, 0, LocalDate(NOON)) == 0;
    assert rs + [REPLY_SLOT] == [VISIT_SLOT, REPLY_SLOT];
    assert C.ReserveForDecision(rs, db.limits, 0, 0, 1, 1, NOON).value == [VISIT_SLOT, REPLY_SLOT];
    assert AuthorizeVerdict(db, 0, NOON, CHECKS) == Allows([VISIT_SLOT, REPLY_SLOT]);
    var after := AuthorizeReply(db, 0, NOON, CHECKS).value;
    assert after.decisions == Allowed().db.decisions;
    assert after.messages == Allowed().db.messages;
  }

  lemma ReplyMayGo()
    ensures AutomaticClear(Allowed().db, AutomaticReply, 0, CLEAR)
  {
    hide CountsForConversation, CountsForDay;
    assert C.FindReservation(Allowed().db.reservations, C.ForDecision(0, 1)) == Some(REPLY_SLOT);
  }

  /** The visit is neither a reply nor, any more, an automatic message. */
  lemma GateSeesNothing()
    ensures RateClear(Allowed().db, REPLY, 0, Some(1), NOON)
  {
    var db := Allowed().db;
    assert forall k :: k in db.messages <==> k == VISIT || k == REPLY;
    assert !CountsForConversation(db, VISIT, 1, NOON - 24 * HOUR) && !CountsForDay(db, VISIT, 0, LocalDate(NOON));
    hide CountsForConversation, CountsForDay;
    assert (set k | k in db.messages && k != REPLY && CountsForConversation(db, k, 1, NOON - 24 * HOUR)) == {};
    assert (set k | k in db.messages && k != REPLY && CountsForDay(db, k, 0, LocalDate(NOON))) == {};
  }

  lemma SendingReply()
    ensures Prepare(Allowed().db, REPLY, NOON, CLEAR) == Effect(ReplyArmed().db)
  {
    hide AutomaticClear, RateClear;
    ReplyMayGo();
    GateSeesNothing();
    assert SendVerdict(Allowed().db, AutomaticReply, 0, NOON, CLEAR).Allows?;
    var after := Prepare(Allowed().db, REPLY, NOON, CLEAR).db;
    assert after.decisions == ReplyArmed().db.decisions;
    assert after.messages == ReplyArmed().db.messages;
  }

  lemma ConfirmingReply()
    ensures ConfirmStep(ReplyCalled(), REPLY, NOON, "inbound", true)
            == ReplyDone().(workers := ReplyCalled().workers)
  {
  }

  // ---------- the run ----------

  /** The rest of the run is legal from `w`, whenever a mode was last changed up to noon, and ends in `end`. */
  ghost predicate Leads(w: World, ops: seq<Op>, end: World) {
    TimedRuns(w, ops) && Runs(w, ops) && Final(w, ops) == end
    && forall clock :: clock <= NOON ==> SteadyRuns(w, clock, ops)
  }

  lemma LeadsOn(w: World, op: Op, next: World, rest: seq<Op>, end: World)
    requires Enabled(w, op) && Serial(w, op) && Timed(w, op)
    requires forall clock :: clock <= NOON ==> Steady(w, clock, op) && Latest(clock, op) <= NOON
    requires Step(w, op) == next && Leads(next, rest, end)
    ensures Leads(w, [op] + rest, end)
  {
    hide Enabled, Serial, Timed, Steady, Step, Latest;
    assert ([op] + rest)[1..] == rest;
    forall clock | clock <= NOON ensures SteadyRuns(w, clock, [op] + rest) {
      assert Steady(w, clock, op) && SteadyRuns(next, Latest(clock, op), rest);
    }
  }

  lemma NoStepsLeft(w: World)
    ensures Leads(w, [], w)
  {
  }

  lemma ReplyConfirmed()
    ensures Leads(ReplyCalled(), [REPLY_SENT], ReplyDone())
  {
    hide ConfirmStep, Leads;
    ConfirmingReply();
    NoStepsLeft(ReplyDone());
    LeadsOn(ReplyCalled(), REPLY_SENT, ReplyDone(), [], ReplyDone());
    assert [REPLY_SENT] + [] == [REPLY_SENT];
  }

  lemma ReplyHandedOver()
    ensures Leads(ReplyArmed(), [HandOver(0), REPLY_SENT], ReplyDone())
  {
    hide Leads;
    ReplyConfirmed();
    LeadsOn(ReplyArmed(), HandOver(0), ReplyCalled(), [REPLY_SENT], ReplyDone());
    assert [HandOver(0)] + [REPLY_SENT] == [HandOver(0), REPLY_SENT];
  }

  lemma ReplyLeaves()
    ensures Leads(Allowed(), [SEND_REPLY, HandOver(0), REPLY_SENT], ReplyDone())
  {
    hide Prepare, Leads;
    SendingReply();
    ReplyHandedOver();
    LeadsOn(Allowed(), SEND_REPLY, ReplyArmed(), [HandOver(0), REPLY_SENT], ReplyDone());
    assert [SEND_REPLY] + [HandOver(0), REPLY_SENT] == [SEND_REPLY, HandOver(0), REPLY_SENT];
  }

  lemma SecondHalf()
    ensures Leads(VisitDone(), SECOND_HALF, ReplyDone())
  {
    hide AuthorizeReply, Leads;
    ReplyLeaves();
    Authorizing();
    var rest := [SEND_REPLY, HandOver(0), REPLY_SENT];
    LeadsOn(Decided(), AUTHORIZE, Allowed(), rest, ReplyDone());
    LeadsOn(Reviewing(), DECIDE, Decided(), [AUTHORIZE] + rest, ReplyDone());
    LeadsOn(VisitDone(), TO_REVIEW, Reviewing(), [DECIDE] + ([AUTHORIZE] + rest), ReplyDone());
    assert [TO_REVIEW] + ([DECIDE] + ([AUTHORIZE] + rest)) == SECOND_HALF;
  }

  lemma VisitSent()
    ensures Leads(VisitCalled(), [VISIT_SENT] + SECOND_HALF, ReplyDone())
  {
    hide ConfirmStep, Leads;
    SecondHalf();
    ConfirmingVisit();
    LeadsOn(VisitCalled(), VISIT_SENT, VisitDone(), SECOND_HALF, ReplyDone());
  }

  lemma VisitLeaves()
    ensures Leads(Created(), [SEND_VISIT] + ([HandOver(0)] + ([VISIT_SENT] + SECOND_HALF)), ReplyDone())
  {
    hide Prepare, Leads;
    VisitSent();
    SendingVisit();
    LeadsOn(VisitArmed(), HandOver(0), VisitCalled(), [VISIT_SENT] + SECOND_HALF, ReplyDone());
    LeadsOn(Created(), SEND_VISIT, VisitArmed(), [HandOver(0)] + ([VISIT_SENT] + SECOND_HALF), ReplyDone());
  }

  lemma WholeRun()
    ensures Leads(Start(), FIRST_HALF + SECOND_HALF, ReplyDone())
  {
    hide CreateScheduled, Leads;
    VisitLeaves();
    Creating();
    var rest := [SEND_VISIT] + ([HandOver(0)] + ([VISIT_SENT] + SECOND_HALF));
    LeadsOn(Planned(), CREATE, Created(), rest, ReplyDone());
    LeadsOn(Start(), PLAN, Planned(), [CREATE] + rest, ReplyDone());
    assert [PLAN] + ([CREATE] + rest) == FIRST_HALF + SECOND_HALF;
  }

  /** The run is legal, with well-behaved clocks and one worker, and two messages of workspace 0 that nobody released
      are confirmed on day 0, where the limit is one. Its only change of a mode is not guarded: the visit was confirmed
      on that day. */
  lemma ModeChangeLetsOneMoreLeave()
    ensures Initial(Start())
    ensures var ops := FIRST_HALF + SECOND_HALF;
            && TimedRuns(Start(), ops) && SteadyRuns(Start(), 0, ops) && Runs(Start(), ops)
            && var db := Final(Start(), ops).db;
               && db.limits.workspace == 1
               && SentIn24(db, OnWorkspace(0), DayStart(0), DayStart(1) - 1) == {VISIT, REPLY}
    ensures forall op :: op in FIRST_HALF + SECOND_HALF && op.DoSetMode? ==> op == TO_REVIEW
    ensures Unreleased(VisitDone().db, VISIT, NOON) && !Guarded(VisitDone(), 0, TO_REVIEW)
  {
    WholeRun();
    Dates();
    GuardIsHit();
    hide TimedRuns, SteadyRuns, Runs, Final, Guarded, Unreleased;
    var db := ReplyDone().db;
    assert forall k :: k in db.messages <==> k == VISIT || k == REPLY;
  }

  lemma GuardIsHit()
    ensures Unreleased(VisitDone().db, VISIT, NOON) && !Guarded(VisitDone(), 0, TO_REVIEW)
  {
    Dates();
    assert Unreleased(VisitDone().db, VISIT, NOON);
  }
}
