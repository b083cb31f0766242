/**
 The first approval of a campaign authorises exactly the audience it stores.

 The reason is that an enrolment that loses its eligibility after it got a message never regains it. A campaign that was
 approved, paused and sent back to search has messages of its first approval left, and for it the claim fails.
 */
module FirstApproval {
  import opened Common
  import opened Approval
  import opened AudienceRuns

  // ---------- up to the first approval ----------

  /** A message belongs to the email its enrolment chose; its enrolment was eligible once and is in the audience as long
      as it still is; and it is cancelled only for an enrolment lost for good and out of the audience. */
  predicate SlotOk(perMessage: bool, s: Slot) {
    s.message.Some? ==>
      var m := s.message.value;
      && s.enrollment.selected == Some(m.email) && !s.enrollment.standing.NotYet?
      && m.state in {MessagePrepared, ReviewReady, MessageCancelled}
      && (m.state.ReviewReady? ==> perMessage)
      && (m.state.MessageCancelled? ==> s.enrollment.standing.Lost? && !InAudience(s))
      && (s.enrollment.standing.Good? ==> InAudience(s))
  }

  /** Whoever the stored hash lists has a message. */
  ghost predicate ListedHaveMessages(c: Campaign) {
    forall i: nat, email: nat :: (i, email) in c.audienceHash ==> i < |c.slots| && c.slots[i].message.Some?
  }

  ghost predicate SlotsOk(c: Campaign) {
    forall i :: 0 <= i < |c.slots| ==> SlotOk(c.perMessage, c.slots[i])
  }

  ghost predicate FirstRound(c: Campaign) {
    c.approvedAt.None? ==>
      && !c.state.Running?
      && (c.state.Discovering? || c.state.Paused? ==> forall i :: 0 <= i < |c.slots| ==> c.slots[i].message.None?)
      && (c.state.AwaitingApproval? ==> SlotsOk(c) && ListedHaveMessages(c))
  }

  lemma SlotStepKeepsOk(c: Campaign, op: Op, s: Slot)
    requires SlotOk(c.perMessage, s) && c.state.AwaitingApproval?
    ensures SlotOk(c.perMessage, SlotStep(c, op, s))
    ensures SlotStep(c, op, s).message.Some? <==> s.message.Some?
  {
  }

  lemma SlotStepMakesNoMessage(c: Campaign, op: Op, s: Slot)
    ensures s.message.None? ==> SlotStep(c, op, s).message.None?
  {
  }

  lemma PreparedSlotIsOk(c: Campaign, s: Slot)
    requires SlotOk(c.perMessage, s)
    ensures SlotOk(c.perMessage, PreparedSlot(c, s))
    ensures InAudience(PreparedSlot(c, s)) ==> PreparedSlot(c, s).message.Some?
  {
  }

  lemma PreparationIsOk(c: Campaign)
    requires SlotsOk(c) && PrepareMessages(c).Some?
    ensures SlotsOk(PrepareMessages(c).value) && ListedHaveMessages(PrepareMessages(c).value)
  {
    var c' := PrepareMessages(c).value;
    hide SlotOk, PreparedSlot, InAudience, AudienceRows;
    forall i | 0 <= i < |c'.slots|
      ensures SlotOk(c.perMessage, c'.slots[i]) && (InAudience(c'.slots[i]) ==> c'.slots[i].message.Some?)
    {
      PreparedSlotIsOk(c, c.slots[i]);
    }
    forall i: nat, email: nat | (i, email) in c'.audienceHash ensures i < |c'.slots| && c'.slots[i].message.Some? {
      RowsAreTheAudience(c'.slots, i, email);
    }
  }

  lemma SlotStepKeepsFirstRound(c: Campaign, op: Op)
    requires FirstRound(c) && OnSlot(op) && op.slot < |c.slots|
    ensures FirstRound(Step(c, op))
  {
    hide SlotStep, SlotOk;
    SlotStepMakesNoMessage(c, op, c.slots[op.slot]);
    if c.approvedAt.None? && c.state.AwaitingApproval? { SlotStepKeepsOk(c, op, c.slots[op.slot]); }
  }

  lemma StepKeepsFirstRound(c: Campaign, op: Op)
    ensures FirstRound(c) ==> FirstRound(Step(c, op))
  {
    if !FirstRound(c) { return; }
    if OnSlot(op) {
      if op.slot < |c.slots| { SlotStepKeepsFirstRound(c, op); }
    } else {
      hide ApproveCampaign, StartCampaign, PrepareMessages;
      match op
      case FinishSearch(finished) => FinishKeepsFirstRound(c, finished);
      case RefreshAudience => RefreshKeepsFirstRound(c);
      case Approve(now) => ApprovalsEndFirstRound(c, now);
      case Start(now) => ApprovalsEndFirstRound(c, now);
      case _ =>
    }
  }

  lemma FinishKeepsFirstRound(c: Campaign, finished: bool)
    requires FirstRound(c)
    ensures FirstRound(Keep(c, MoveToApproval(c, finished)))
  {
    if c.approvedAt.None? && c.state.Discovering? && PrepareMessages(c).Some? {
      PreparationIsOk(c);
      PreparationKeepsFields(c);
    }
    hide PrepareMessages;
  }

  lemma PreparationKeepsFields(c: Campaign)
    requires PrepareMessages(c).Some?
    ensures var c' := PrepareMessages(c).value;
            c'.approvedAt == c.approvedAt && c'.state == c.state && c'.perMessage == c.perMessage
  {
  }

  lemma RefreshKeepsFirstRound(c: Campaign)
    requires FirstRound(c)
    ensures FirstRound(Keep(c, RefreshReview(c)))
  {
    if c.approvedAt.None? && c.state.AwaitingApproval? && PrepareMessages(c).Some? {
      PreparationIsOk(c);
      PreparationKeepsFields(c);
    }
    hide PrepareMessages;
  }

  lemma ApprovalsEndFirstRound(c: Campaign, now: int)
    ensures ApproveCampaign(c, now).Some? ==> ApproveCampaign(c, now).value.approvedAt.Some?
    ensures StartCampaign(c, now).Some? ==> StartCampaign(c, now).value.approvedAt.Some?
  {
  }

  lemma {:induction false} RunKeepsFirstRound(c: Campaign, ops: seq<Op>)
    requires FirstRound(c)
    ensures FirstRound(Final(c, ops))
    decreases |ops|
  {
    hide FirstRound, Step;
    if ops != [] {
      StepKeepsFirstRound(c, ops[0]);
      RunKeepsFirstRound(Step(c, ops[0]), ops[1..]);
    }
  }

  // ---------- the first approval is exact ----------

  lemma ListedIsReady(c: Campaign, i: nat)
    requires c.state.AwaitingApproval? && !c.perMessage && SlotsOk(c) && ListedHaveMessages(c)
    requires c.audienceHash == AudienceRows(c.slots) && i < |c.slots|
    ensures ReadyForCampaign(c.slots[i])
  {
    var s := c.slots[i];
    if InAudience(s) {
      RowsAreTheAudience(c.slots, i, s.enrollment.selected.value);
      assert (i, s.enrollment.selected.value) in c.audienceHash;
    }
    assert SlotOk(c.perMessage, s);
  }

  /** In every run, whatever changes between the search and the approval: a campaign that is approved for the first time
      queues exactly the messages of the audience it stores, and at least one. */
  lemma FirstApprovalIsExact(start: Campaign, ops: seq<Op>, now: int)
    requires Begun(start)
    ensures var c := Final(start, ops);
            c.approvedAt.None? && ApproveCampaign(c, now).Some? ==>
              var c' := ApproveCampaign(c, now).value; Authorised(c') && ExactAudience(c'.slots)
  {
    RunKeepsFirstRound(start, ops);
    var c := Final(start, ops);
    if c.approvedAt.None? && ApproveCampaign(c, now).Some? {
      CampaignApprovalIsExact(c, now);
      forall i | 0 <= i < |c.slots| ensures ReadyForCampaign(c.slots[i]) { ListedIsReady(c, i); }
    }
  }

  /** The per-message path checks no stored hash. In every run its first start is exact if and only if each enrolment of
      the audience has a message. */
  lemma FirstStartIsExactly(start: Campaign, ops: seq<Op>, now: int)
    requires Begun(start)
    ensures var c := Final(start, ops);
            c.approvedAt.None? && StartCampaign(c, now).Some? ==>
              var c' := StartCampaign(c, now).value;
              && Authorised(c')
              && (ExactAudience(c'.slots) <==>
                    forall i :: 0 <= i < |c.slots| && InAudience(c.slots[i]) ==> c.slots[i].message.Some?)
  {
    RunKeepsFirstRound(start, ops);
    var c := Final(start, ops);
    if c.approvedAt.Some? || StartCampaign(c, now).None? { return; }
    PerMessageStartIsExact(c, now);
    assert c.state.AwaitingApproval?;
    hide StartCampaign, Authorised, ExactAudience, AudienceRows;
    forall i | 0 <= i < |c.slots|
      ensures ReadyToStart(c.slots[i]) <==> (InAudience(c.slots[i]) ==> c.slots[i].message.Some?)
    {
      StartIsReady(c, c.slots[i]);
    }
  }

  lemma StartIsReady(c: Campaign, s: Slot)
    requires SlotOk(c.perMessage, s)
    ensures ReadyToStart(s) <==> (InAudience(s) ==> s.message.Some?)
  {
  }
}
