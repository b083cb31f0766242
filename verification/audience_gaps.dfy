/**
 Where an approval and its audience part: a per-message start between the two transactions that bring a restored
 business in, and a second approval of a campaign that was paused and sent back to search.
 */
module AudienceGaps {
  import opened Common
  import opened Approval
  import opened AudienceRuns

  const FIRST := Slot(Enrollment(Eligible, Some(10), Good), None)
  const SECOND := Slot(Enrollment(Eligible, Some(20), Good), None)
  const REMOVED := Slot(Enrollment(Eligible, Some(20), NotYet), None)
  const LEFT_OUT := Slot(Enrollment(Ineligible, Some(20), NotYet), None)

  function Searching(perMessage: bool, slots: seq<Slot>): Campaign {
    Campaign(Discovering, perMessage, slots, 1, true, 2, 3, [], 0, 0, Fixed(3), None)
  }

  /** The stored hashes describe the slots. */
  function Ready(perMessage: bool, slots: seq<Slot>, approvedAt: Option<int>): Campaign {
    RefreshHashes(Searching(perMessage, slots)).(state := AwaitingApproval, approvedAt := approvedAt)
  }

  lemma FinalOn(c: Campaign, op: Op, rest: seq<Op>)
    ensures Final(c, [op] + rest) == Final(Step(c, op), rest)
  {
    assert ([op] + rest)[1..] == rest;
  }

  /** Two businesses are found; the audience filter removes the second, and the search ends. */
  const SEARCH_OPS := [Enrol(Some(10), Good), Enrol(Some(20), Good), Op.Skip(1), FinishSearch(true)]

  function Prepared10(perMessage: bool): Slot {
    Slot(Enrollment(EnrollmentState.Prepared, Some(10), Good),
         Some(Message(if perMessage then ReviewReady else MessagePrepared, 10, 3, None, Some(1))))
  }

  lemma SearchEnds(perMessage: bool)
    ensures MoveToApproval(Searching(perMessage, [FIRST, REMOVED]), true)
            == Some(Ready(perMessage, [Prepared10(perMessage), LEFT_OUT], None))
  {
    var c := Searching(perMessage, [FIRST, REMOVED]);
    assert PreparedSlot(c, FIRST) == Prepared10(perMessage) && PreparedSlot(c, REMOVED) == LEFT_OUT;
    var prepared := PrepareMessages(c).value;
    assert prepared.slots == [Prepared10(perMessage), LEFT_OUT];
    assert prepared.slots[0].message.Some?;
  }

  lemma AfterSearch(perMessage: bool, rest: seq<Op>)
    ensures Final(Searching(perMessage, []), SEARCH_OPS + rest)
            == Final(Ready(perMessage, [Prepared10(perMessage), LEFT_OUT], None), rest)
  {
    hide Final, MoveToApproval;
    SearchEnds(perMessage);
    var finish := [FinishSearch(true)] + rest;
    assert SEARCH_OPS + rest == [Enrol(Some(10), Good)] + ([Enrol(Some(20), Good)] + ([Op.Skip(1)] + finish));
    FinalOn(Searching(perMessage, []), Enrol(Some(10), Good), [Enrol(Some(20), Good)] + ([Op.Skip(1)] + finish));
    assert Step(Searching(perMessage, []), Enrol(Some(10), Good)) == Searching(perMessage, [FIRST]);
    FinalOn(Searching(perMessage, [FIRST]), Enrol(Some(20), Good), [Op.Skip(1)] + finish);
    assert [FIRST] + [SECOND] == [FIRST, SECOND];
    FinalOn(Searching(perMessage, [FIRST, SECOND]), Op.Skip(1), finish);
    assert [FIRST, SECOND][1 := REMOVED] == [FIRST, REMOVED];
    FinalOn(Searching(perMessage, [FIRST, REMOVED]), FinishSearch(true), rest);
  }

  // ---------- a start between restoring and refreshing ----------

  const RELEASED := Slot(Enrollment(EnrollmentState.Prepared, Some(10), Good),
                         Some(Message(MessagePrepared, 10, 3, Some(0), Some(1))))
  const RESTORED := Slot(Enrollment(Ineligible, Some(20), Good), None)

  /** The first message is released; then the removed business is restored and becomes eligible, in a transaction of
      its own. */
  const RESTORE_OPS := [Release(0, 0), Gain(1), Resolve(1, None, Good)]

  lemma AfterRestoring()
    ensures Final(Ready(true, [Prepared10(true), LEFT_OUT], None), RESTORE_OPS)
            == Ready(true, [Prepared10(true), LEFT_OUT], None).(slots := [RELEASED, SECOND])
  {
    hide Final, AudienceRows;
    var c := Ready(true, [Prepared10(true), LEFT_OUT], None);
    assert RESTORE_OPS == [Release(0, 0)] + ([Gain(1)] + ([Resolve(1, None, Good)] + []));
    FinalOn(c, Release(0, 0), [Gain(1)] + ([Resolve(1, None, Good)] + []));
    assert Step(c, Release(0, 0)).slots == [RELEASED, LEFT_OUT];
    FinalOn(c.(slots := [RELEASED, LEFT_OUT]), Gain(1), [Resolve(1, None, Good)] + []);
    assert Step(c.(slots := [RELEASED, LEFT_OUT]), Gain(1)).slots == [RELEASED, RESTORED];
    FinalOn(c.(slots := [RELEASED, RESTORED]), Resolve(1, None, Good), []);
    assert Step(c.(slots := [RELEASED, RESTORED]), Resolve(1, None, Good)).slots == [RELEASED, SECOND];
    NoMoreSteps(c.(slots := [RELEASED, SECOND]));
  }

  lemma NoMoreSteps(c: Campaign)
    ensures Final(c, []) == c
  {
  }

  /** Started before the audience is refreshed, a per-message campaign lists an enrolment that has no message. */
  lemma StartMayListAnEnrolmentWithoutMessage()
    ensures Begun(Searching(true, []))
    ensures var c := Final(Searching(true, []), SEARCH_OPS + RESTORE_OPS);
            && c.approvedAt.None? && StartCampaign(c, 1).Some?
            && var c' := StartCampaign(c, 1).value;
               |c'.slots| == 2 && (1, 20) in c'.audienceHash && c'.slots[1].message.None? && !ExactAudience(c'.slots)
  {
    AfterSearch(true, RESTORE_OPS);
    AfterRestoring();
    hide Final;
    var c := Ready(true, [Prepared10(true), LEFT_OUT], None).(slots := [RELEASED, SECOND]);
    assert c.slots[0] == RELEASED && AwaitsStart(RELEASED) && Passes(RELEASED);
    assert c.slots[1] == SECOND && !AwaitsStart(SECOND);
    var c' := StartCampaign(c, 1).value;
    assert c'.slots[1] == SECOND && InAudience(c'.slots[1]) && !GoesOut(c'.slots[1]);
    RowsAreTheAudience(c'.slots, 1, 20);
  }

  // ---------- a second approval ----------

  const QUEUED := Slot(Enrollment(EnrollmentState.Prepared, Some(10), Good),
                       Some(Message(Queued, 10, 3, Some(0), Some(1))))
  const SUPPRESSED := Slot(Enrollment(EnrollmentState.Prepared, Some(10), Lost), QUEUED.message)
  const DROPPED := Slot(Enrollment(Ineligible, Some(10), Lost), QUEUED.message)
  const PREPARED_20 := Slot(Enrollment(EnrollmentState.Prepared, Some(20), Good),
                            Some(Message(MessagePrepared, 20, 3, None, Some(1))))

  /** Approved and paused, the campaign goes back to search; the removed business is restored, the email of the first
      is suppressed, and the search ends again. */
  const SECOND_OPS := [Approve(0), Pause, Search, Gain(1), Lose(0), FinishSearch(true)]

  lemma ApprovedOnce()
    ensures Step(Ready(false, [Prepared10(false), LEFT_OUT], None), Approve(0))
            == Ready(false, [QUEUED, LEFT_OUT], Some(0)).(state := Running)
  {
    var c := Ready(false, [Prepared10(false), LEFT_OUT], None);
    assert c.slots[0] == Prepared10(false) && AwaitsCampaign(c.slots[0]) && Passes(c.slots[0]);
    assert c.slots[1] == LEFT_OUT && !AwaitsCampaign(LEFT_OUT);
    assert ApproveCampaign(c, 0).Some?;
    assert ApprovedSlot(c, Prepared10(false), 0) == QUEUED && ApprovedSlot(c, LEFT_OUT, 0) == LEFT_OUT;
    assert ApproveCampaign(c, 0).value.slots == [QUEUED, LEFT_OUT];
  }

  lemma SearchedTwice()
    ensures var c := Ready(false, [QUEUED, LEFT_OUT], Some(0)).(state := Discovering, slots := [SUPPRESSED, RESTORED]);
            Step(c, FinishSearch(true)) == Ready(false, [DROPPED, PREPARED_20], Some(0))
  {
    var c := Ready(false, [QUEUED, LEFT_OUT], Some(0)).(state := Discovering, slots := [SUPPRESSED, RESTORED]);
    assert PreparedSlot(c, SUPPRESSED) == DROPPED && PreparedSlot(c, RESTORED) == PREPARED_20;
    var prepared := PrepareMessages(c).value;
    assert prepared.slots == [DROPPED, PREPARED_20];
    assert prepared.slots[0].message.Some?;
  }

  lemma AfterSecondSearch()
    ensures Final(Ready(false, [Prepared10(false), LEFT_OUT], None), SECOND_OPS)
            == Ready(false, [DROPPED, PREPARED_20], Some(0))
  {
    hide Final, AudienceRows, ApproveCampaign, MoveToApproval;
    ApprovedOnce();
    SearchedTwice();
    var c, r := Ready(false, [Prepared10(false), LEFT_OUT], None), Ready(false, [QUEUED, LEFT_OUT], Some(0));
    var rest := [Gain(1)] + ([Lose(0)] + ([FinishSearch(true)] + []));
    assert SECOND_OPS == [Approve(0)] + ([Pause] + ([Search] + rest));
    FinalOn(c, Approve(0), [Pause] + ([Search] + rest));
    FinalOn(r.(state := Running), Pause, [Search] + rest);
    FinalOn(r.(state := Paused), Search, rest);
    var d := r.(state := Discovering);
    FinalOn(d, Gain(1), [Lose(0)] + ([FinishSearch(true)] + []));
    assert Step(d, Gain(1)).slots == [QUEUED, RESTORED];
    FinalOn(d.(slots := [QUEUED, RESTORED]), Lose(0), [FinishSearch(true)] + []);
    assert Step(d.(slots := [QUEUED, RESTORED]), Lose(0)).slots == [SUPPRESSED, RESTORED];
    FinalOn(d.(slots := [SUPPRESSED, RESTORED]), FinishSearch(true), []);
    NoMoreSteps(Ready(false, [DROPPED, PREPARED_20], Some(0)));
  }

  /** After a second approval a message of the first one is queued for an enrolment that the stored hash omits. */
  lemma SecondApprovalMayReachOutsideTheAudience()
    ensures Begun(Searching(false, []))
    ensures var c := Final(Searching(false, []), SEARCH_OPS + SECOND_OPS);
            && c.approvedAt.Some? && ApproveCampaign(c, 1).Some?
            && var c' := ApproveCampaign(c, 1).value;
               |c'.slots| == 2 && GoesOut(c'.slots[0]) && (0, 10) !in c'.audienceHash && !ExactAudience(c'.slots)
  {
    AfterSearch(false, SECOND_OPS);
    AfterSecondSearch();
    hide Final;
    var c := Ready(false, [DROPPED, PREPARED_20], Some(0));
    assert c.slots[0] == DROPPED && !AwaitsCampaign(DROPPED);
    assert c.slots[1] == PREPARED_20 && AwaitsCampaign(PREPARED_20) && Passes(PREPARED_20);
    var c' := ApproveCampaign(c, 1).value;
    assert c'.slots[0] == DROPPED && GoesOut(DROPPED) && !InAudience(DROPPED);
    RowsAreTheAudience(c'.slots, 0, 10);
  }
}
