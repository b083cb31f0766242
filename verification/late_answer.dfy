/**
 Why the recovery results assume one worker per message: a run of the protocol in which a late answer, arriving
 after another worker confirmed the message, leaves an acknowledgement that no sweep will ever deliver.
 */
module LateAnswer {
  import opened Common
  import opened Delivery
  import opened DeliveryRuns
  import opened Recovery
  import T = HumanTasks
  import C = Capacity

  const ALL_CLEAR := SendChecks(false, true, true, true, true)
  const PROPOSAL := Auto(ReferredProposal, 0)
  const ACK := Auto(RedirectAck, 0)
  const DECIDED := Decision(0, 1, 1, "inbound", Live, RedirectProposal, AutoEligible)

  const DECIDE := Decide(0, DECIDED)
  const AUTHORIZE := DoAuthorizeReply(0, 0, AuthorizeChecks(false, true, true, true, ""))
  const PREPARE := DoPrepare(0, PROPOSAL, 0, ALL_CLEAR)
  const LOOK_UP := StartLookup(1, PROPOSAL)
  const FOUND := EndLookup(1, 0, Accepted("fresh", true))
  const ACKNOWLEDGE := DoAuthorizeAck(0, 0, true, "")
  const LATE_ERROR := EndSend(0, 0, HardError)

  /** The run: a redirect is authorised and handed over; a second worker finds it at Gmail and confirms it, the
      acknowledgement is queued, and then the first call answers with an error. */
  const LATE_RUN := [DECIDE, AUTHORIZE, PREPARE, HandOver(0), LOOK_UP, FOUND, ACKNOWLEDGE, LATE_ERROR]

  // ---------- the worlds on the way ----------

  function EmptyWorld(): World {
    World(Db(map[], map[], map[], {}, map[], [], T.TaskStore([], {1}, map[1 := 1], {}, {}), C.Limits(3, 20)),
          map[], [], [])
  }

  function AuthorizedWorld(): World {
    EmptyWorld().(db := EmptyWorld().db.(
      decisions := map[0 := DECIDED.(state := Authorized)],
      messages := map[PROPOSAL := QueuedMessage(0)],
      reservations := [C.Reservation(0, C.ForDecision(0, 1), 0, LocalDate(0), 2)]))
  }

  function ArmedWorld(): World {
    var w := AuthorizedWorld();
    w.(db := w.db.(decisions := map[0 := DECIDED.(state := Executing)],
                   messages := map[PROPOSAL := SendingRow(QueuedMessage(0), 0)]),
       workers := map[0 := Armed(PROPOSAL)], started := [PROPOSAL])
  }

  function TwoWorkersWorld(): World {
    ArmedWorld().(workers := map[0 := Calling(PROPOSAL), 1 := LookingUp(PROPOSAL)], history := [HandedOver(PROPOSAL)])
  }

  function ConfirmedWorld(): World {
    var w := TwoWorkersWorld();
    w.(db := w.db.(messages := map[PROPOSAL := SentRow(SendingRow(QueuedMessage(0), 0), 0)],
                   threads := map["fresh" := 1]),
       workers := map[0 := Calling(PROPOSAL)],
       history := [HandedOver(PROPOSAL), Confirmed(PROPOSAL, true)])
  }

  function AckWorld(): World {
    var w := ConfirmedWorld();
    w.(db := WithRow(w.db, ACK, QueuedMessage(0)))
  }

  lemma AuthorizingStep()
    ensures AuthorizeReply(EmptyWorld().db.(decisions := map[0 := DECIDED]), 0, 0, AUTHORIZE.checks)
            == Some(AuthorizedWorld().db)
  {
    var db := EmptyWorld().db.(decisions := map[0 := DECIDED]);
    var rs := db.reservations;
    assert C.FindReservation(rs, C.ForDecision(0, 1)).None?;
    assert C.SlotsSince(rs, 1, 0 - 24 * HOUR) == 0 && C.SlotsOnDay(rs, 0, LocalDate(0)) == 0;
    assert AuthorizeVerdict(db, 0, 0, AUTHORIZE.checks).Allows?;
    var after := AuthorizeReply(db, 0, 0, AUTHORIZE.checks).value;
    assert after.decisions == AuthorizedWorld().db.decisions;
    assert after.messages == AuthorizedWorld().db.messages;
    assert after.reservations == AuthorizedWorld().db.reservations;
  }

  lemma SendingStep()
    ensures Prepare(AuthorizedWorld().db, PROPOSAL, 0, ALL_CLEAR) == Effect(ArmedWorld().db)
  {
    var db := AuthorizedWorld().db;
    assert (set k | k in db.messages && k != PROPOSAL && CountsForConversation(db, k, 1, -24 * HOUR)) == {};
    assert (set k | k in db.messages && k != PROPOSAL && CountsForDay(db, k, 0, LocalDate(0))) == {};
    assert C.FindReservation(db.reservations, C.ForDecision(0, 1)) == Some(db.reservations[0]);
  }

  lemma ConfirmingStep()
    ensures ConfirmStep(TwoWorkersWorld(), PROPOSAL, 0, "fresh", true)
            == ConfirmedWorld().(workers := TwoWorkersWorld().workers)
  {
  }

  lemma AckStep()
    ensures AuthorizeAck(ConfirmedWorld().db, 0, 0, true, "") == Some(AckWorld().db)
  {
  }

  lemma ErrorStrands()
    ensures RecordError(AckWorld().db, PROPOSAL, 0, false).Some?
    ensures Stranded(RecordError(AckWorld().db, PROPOSAL, 0, false).value, ACK)
  {
    var failed := AckWorld().db.messages[PROPOSAL].(state := SendFailed, nextAttemptAt := None);
    var db := WithRow(AckWorld().db, PROPOSAL, failed);
    var r := ReviewRequest(db.decisions[0], 0, "GMAIL_DELIVERY_FAILED");
    assert C.FindReservation([], C.ForAttempt(0)).None?;
    assert T.CountMatches(db.tasks.tasks, r) == 0;
    assert T.OpenTask(db.tasks, r).Some?;
  }

  /** From `w` the given steps are legal and leave the acknowledgement stranded. */
  ghost predicate Strands(w: World, ops: seq<Op>) {
    Runs(w, ops) && Stranded(Final(w, ops).db, ACK)
  }

  lemma StrandsOn(w: World, op: Op, rest: seq<Op>)
    requires Enabled(w, op) && Strands(Step(w, op), rest)
    ensures Strands(w, [op] + rest)
  {
    hide Enabled, Step, Stranded;
    assert ([op] + rest)[1..] == rest;
  }

  lemma EndsStranded(w: World)
    requires Stranded(w.db, ACK)
    ensures Strands(w, [])
  {
    hide Stranded;
  }

  lemma AfterAck()
    ensures Strands(AckWorld(), [LATE_ERROR])
  {
    hide RecordError, Stranded, Strands;
    ErrorStrands();
    EndsStranded(Step(AckWorld(), LATE_ERROR));
    StrandsOn(AckWorld(), LATE_ERROR, []);
    assert [LATE_ERROR] + [] == [LATE_ERROR];
  }

  lemma AfterConfirmation()
    ensures Strands(ConfirmedWorld(), [ACKNOWLEDGE, LATE_ERROR])
  {
    hide AuthorizeAck, Strands;
    AckStep();
    AfterAck();
    StrandsOn(ConfirmedWorld(), ACKNOWLEDGE, [LATE_ERROR]);
    assert [ACKNOWLEDGE] + [LATE_ERROR] == [ACKNOWLEDGE, LATE_ERROR];
  }

  lemma AfterHandOver()
    ensures var w := ArmedWorld().(workers := map[0 := Calling(PROPOSAL)], history := [HandedOver(PROPOSAL)]);
            Strands(w, [LOOK_UP] + ([FOUND] + [ACKNOWLEDGE, LATE_ERROR]))
  {
    hide ConfirmStep, Strands;
    ConfirmingStep();
    AfterConfirmation();
    var w := ArmedWorld().(workers := map[0 := Calling(PROPOSAL)], history := [HandedOver(PROPOSAL)]);
    assert TwoWorkersWorld().workers - {1} == ConfirmedWorld().workers;
    StrandsOn(TwoWorkersWorld(), FOUND, [ACKNOWLEDGE, LATE_ERROR]);
    StrandsOn(w, LOOK_UP, [FOUND] + [ACKNOWLEDGE, LATE_ERROR]);
  }

  lemma AfterPreparing()
    ensures Strands(ArmedWorld(), [HandOver(0)] + ([LOOK_UP] + ([FOUND] + [ACKNOWLEDGE, LATE_ERROR])))
  {
    hide Strands;
    AfterHandOver();
    assert Step(ArmedWorld(), HandOver(0))
           == ArmedWorld().(workers := map[0 := Calling(PROPOSAL)], history := [HandedOver(PROPOSAL)]);
    StrandsOn(ArmedWorld(), HandOver(0), [LOOK_UP] + ([FOUND] + [ACKNOWLEDGE, LATE_ERROR]));
  }

  lemma AfterAuthorizing()
    ensures Strands(AuthorizedWorld(),
                    [PREPARE] + ([HandOver(0)] + ([LOOK_UP] + ([FOUND] + [ACKNOWLEDGE, LATE_ERROR]))))
  {
    hide Prepare, Strands;
    SendingStep();
    AfterPreparing();
    assert Step(AuthorizedWorld(), PREPARE) == ArmedWorld();
    StrandsOn(AuthorizedWorld(), PREPARE, [HandOver(0)] + ([LOOK_UP] + ([FOUND] + [ACKNOWLEDGE, LATE_ERROR])));
  }

  /** The run is a real one, and it ends with the acknowledgement stranded. */
  lemma LateAnswerStrandsAnAck()
    ensures Initial(EmptyWorld()) && Runs(EmptyWorld(), LATE_RUN)
    ensures Stranded(Final(EmptyWorld(), LATE_RUN).db, ACK)
  {
    hide AuthorizeReply, Stranded, Runs, Final;
    AuthorizingStep();
    AfterAuthorizing();
    var rest := [PREPARE] + ([HandOver(0)] + ([LOOK_UP] + ([FOUND] + [ACKNOWLEDGE, LATE_ERROR])));
    assert Step(EmptyWorld(), DECIDE).db.decisions == map[0 := DECIDED];
    StrandsOn(Step(EmptyWorld(), DECIDE), AUTHORIZE, rest);
    StrandsOn(EmptyWorld(), DECIDE, [AUTHORIZE] + rest);
    assert [DECIDE] + ([AUTHORIZE] + rest) == LATE_RUN;
  }
}
