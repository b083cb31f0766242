/**
 What the steps of a campaign other than preparing and approving leave in its rows.
 */
module EnrolmentRows {
  import opened Common
  import opened Approval
  import opened AudienceRuns
  import A = ApprovalRows

  /** Everything but one slot stays. */
  ghost predicate OnlySlot(c: Campaign, c': Campaign, i: nat) {
    && c' == c.(slots := c'.slots) && |c'.slots| == |c.slots|
    && forall j :: 0 <= j < |c.slots| && j != i ==> c'.slots[j] == c.slots[j]
  }

  lemma MissingSlotsStay(c: Campaign, op: Op)
    requires OnSlot(op) && op.slot >= |c.slots|
    ensures Step(c, op) == c
  {
  }

  /** The state that a look at the eligibility gives an enrolment: it stays when it has ended. */
  function Seen(e: Enrollment): Enrollment {
    if A.Final(e.state) then e else A.Placed(e, if A.Fit(e) then Eligible else Ineligible)
  }

  /** A new enrolment has no message; an existing one gets an email only when it had none; both are looked at. */
  lemma EnrolsExactly(c: Campaign, email: Option<nat>, standing: Standing, i: nat)
    ensures Step(c, Enrol(email, standing))
            == c.(slots := c.slots + [Slot(Seen(Enrollment(Discovered, email, standing)), None)])
    ensures i < |c.slots| ==>
              var after, s := Step(c, Resolve(i, email, standing)), c.slots[i];
              && OnlySlot(c, after, i) && after.slots[i].message == s.message
              && after.slots[i].enrollment
                 == Seen(if s.enrollment.selected == None && email != None
                         then Enrollment(s.enrollment.state, email, standing) else s.enrollment)
  {
  }

  function Standing'(e: Enrollment, standing: Standing): Enrollment {
    Enrollment(e.state, e.selected, standing)
  }

  /** Eligibility comes once, is put off by the audience filter while the campaign searches or runs, and is lost for
      good. */
  lemma StandingsExactly(c: Campaign, i: nat)
    requires i < |c.slots|
    ensures var s := c.slots[i];
            var e := s.enrollment;
            && OnlySlot(c, Step(c, Gain(i)), i)
            && Step(c, Gain(i)).slots[i]
               == (if e.standing == NotYet then Slot(Standing'(e, Good), s.message) else s)
            && OnlySlot(c, Step(c, Op.Skip(i)), i)
            && Step(c, Op.Skip(i)).slots[i]
               == (if (c.state == Discovering || c.state == Running) && e.standing == Good
                   then Slot(Standing'(e, NotYet), s.message) else s)
            && OnlySlot(c, Step(c, Lose(i)), i)
            && Step(c, Lose(i)).slots[i] == Slot(Standing'(e, Lost), s.message)
  {
  }

  predicate Unsent(m: Message) {
    m.state == MessagePrepared || m.state == ReviewReady || m.state == Queued
  }

  function Off(m: Message): Message {
    Message(MessageCancelled, m.email, m.content, m.approvedAt, m.pdfs)
  }

  /** An organization that becomes a contact loses its eligibility and its unsent message; its enrolment has answered if
      it replied, and is ineligible unless it has ended. */
  lemma BecomesContactExactly(c: Campaign, i: nat, replied: bool)
    requires i < |c.slots|
    ensures var s, after := c.slots[i], Step(c, BecomesContact(i, replied));
            && OnlySlot(c, after, i)
            && after.slots[i]
               == Slot(Enrollment(if replied then Responded
                                  else if A.Final(s.enrollment.state) then s.enrollment.state else Ineligible,
                                  s.enrollment.selected, Lost),
                       if s.message.Some? && Unsent(s.message.value) then Some(Off(s.message.value)) else s.message)
  {
  }

  /** A message is up for review while nobody has released it in a campaign approved message by message. */
  predicate UnderReview(c: Campaign, s: Slot) {
    c.state == AwaitingApproval && c.perMessage && s.message.Some? && s.message.value.state == ReviewReady
    && s.message.value.approvedAt == None
  }

  /** It is edited as long as it is up for review, and released if its enrolment is fit and has its email. */
  lemma ReviewsExactly(c: Campaign, i: nat, content: nat, now: int)
    requires i < |c.slots|
    ensures var s := c.slots[i];
            && OnlySlot(c, Step(c, Edit(i, content)), i)
            && Step(c, Edit(i, content)).slots[i]
               == (if UnderReview(c, s) then
                     var m := s.message.value;
                     Slot(s.enrollment, Some(Message(m.state, m.email, content, m.approvedAt, m.pdfs)))
                   else s)
            && OnlySlot(c, Step(c, Release(i, now)), i)
            && Step(c, Release(i, now)).slots[i]
               == (if UnderReview(c, s) && A.MayGo(s) then
                     var m := s.message.value;
                     Slot(s.enrollment, Some(Message(MessagePrepared, m.email, m.content, Some(now), m.pdfs)))
                   else s)
  {
  }

  /** A campaign pauses while it searches or runs, and goes back to search from a pause; it runs again only when it was
      approved. */
  lemma StatesExactly(c: Campaign)
    ensures Step(c, StopSearch) == (if c.state == Discovering then c.(state := StoppedError) else c)
    ensures Step(c, Pause) == (if c.state == Discovering || c.state == Running then c.(state := Paused) else c)
    ensures Step(c, Search) == (if c.state == Paused then c.(state := Discovering) else c)
    ensures Step(c, Resume) == (if c.state == Paused && c.approvedAt.Some? then c.(state := Running) else c)
  {
  }

  /** It is cancelled, with its unsent messages, until it has ended. */
  lemma CancelsExactly(c: Campaign)
    ensures var after := Step(c, Cancel);
            if c.state == StoppedError || c.state == CampaignCancelled then after == c
            else
              && after == c.(state := CampaignCancelled, slots := after.slots) && |after.slots| == |c.slots|
              && forall i :: 0 <= i < |c.slots| ==>
                   var s := c.slots[i];
                   after.slots[i] == Slot(s.enrollment, if s.message.Some? && Unsent(s.message.value)
                                                        then Some(Off(s.message.value)) else s.message)
  {
  }

  function OrElse(c: Campaign, result: Option<Campaign>): Campaign {
    if result == None then c else result.value
  }

  /** The steps of the approval itself leave the campaign as it was when they raise. */
  lemma ApprovalStepsExactly(c: Campaign, finished: bool, now: int)
    ensures Step(c, FinishSearch(finished)) == OrElse(c, MoveToApproval(c, finished))
    ensures Step(c, RefreshAudience) == OrElse(c, RefreshReview(c))
    ensures Step(c, Op.Approve(now)) == OrElse(c, ApproveCampaign(c, now))
    ensures Step(c, Start(now)) == OrElse(c, StartCampaign(c, now))
  {
    hide MoveToApproval, RefreshReview, ApproveCampaign, StartCampaign;
  }

  /** Files, schedule and text of a campaign may change at any time; each is one field. */
  lemma ChangesExactly(c: Campaign, value: nat, valid: bool)
    ensures Step(c, ChangeFiles(value, valid)) == c.(pdfs := value, pdfsValid := valid)
    ensures Step(c, ChangeSchedule(value)) == c.(schedule := value)
    ensures Step(c, ChangeText(value)) == c.(content := value)
  {
  }
}
