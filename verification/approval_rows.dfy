/**
 What preparing, approving and starting a campaign leave in the rows, and when each is refused.
 */
module ApprovalRows {
  import opened Common
  import opened Approval

  // ---------- words for the rows ----------

  predicate InTheAudience(s: Slot) {
    (s.enrollment.state == Eligible || s.enrollment.state == EnrollmentState.Prepared) && s.enrollment.selected.Some?
  }

  /** The rows of the audience in the order of the slots. */
  ghost predicate Lists(rows: seq<(nat, nat)>, slots: seq<Slot>) {
    && (forall i: nat, email: nat :: (i, email) in rows <==>
          i < |slots| && InTheAudience(slots[i]) && slots[i].enrollment.selected == Some(email))
    && forall a, b :: 0 <= a < b < |rows| ==> rows[a].0 < rows[b].0
  }

  lemma {:induction false} AudienceExactly(slots: seq<Slot>)
    ensures Lists(AudienceRows(slots), slots)
    ensures forall a :: 0 <= a < |AudienceRows(slots)| ==> AudienceRows(slots)[a].0 < |slots|
  {
    if slots != [] {
      AudienceExactly(slots[..|slots| - 1]);
      forall i: nat, email: nat ensures (i, email) in AudienceRows(slots) <==>
            i < |slots| && InTheAudience(slots[i]) && slots[i].enrollment.selected == Some(email)
      {
        RowsAreTheAudience(slots, i, email);
      }
    }
  }

  predicate Fit(e: Enrollment) {
    e.selected.Some? && e.standing == Good
  }

  predicate Final(s: EnrollmentState) {
    s == InitialSent || s == Responded || s == ReminderSent || s == Withdrawn
  }

  function Placed(e: Enrollment, state: EnrollmentState): Enrollment {
    Enrollment(state, e.selected, e.standing)
  }

  // ---------- preparing ----------

  /** An enrolment that is not fit is ineligible unless it has ended; a fit one is prepared, with its message: the one
      it has, with the campaign's files if it has none, or a new one to its email. */
  function Prepares(c: Campaign, s: Slot): Slot {
    var e := s.enrollment;
    if !Fit(e) then Slot(if Final(e.state) then e else Placed(e, Ineligible), s.message)
    else
      Slot(Placed(e, EnrollmentState.Prepared),
           Some(match s.message
                case Some(m) => Message(m.state, m.email, m.content, m.approvedAt,
                                        if m.pdfs == None then Some(c.pdfs) else m.pdfs)
                case None => Message(if c.perMessage then ReviewReady else MessagePrepared, e.selected.value, c.content,
                                     None, Some(c.pdfs))))
  }

  /** The three hashes describe the campaign as it is. */
  ghost predicate Hashed(c: Campaign) {
    Lists(c.audienceHash, c.slots) && c.pdfHash == c.pdfs && c.scheduleHash == c.schedule
  }

  /** Everything but the slots and the three hashes. */
  predicate SameOtherwise(c: Campaign, c': Campaign) {
    && c'.state == c.state && c'.perMessage == c.perMessage && c'.pdfs == c.pdfs && c'.pdfsValid == c.pdfsValid
    && c'.schedule == c.schedule && c'.content == c.content && c'.contentHash == c.contentHash
    && c'.approvedAt == c.approvedAt
  }

  lemma PreparesExactly(c: Campaign)
    ensures PrepareMessages(c).Some? <==> c.pdfsValid
    ensures c.pdfsValid ==>
              var after := PrepareMessages(c).value;
              && Hashed(after) && SameOtherwise(c, after) && |after.slots| == |c.slots|
              && forall i :: 0 <= i < |c.slots| ==> after.slots[i] == Prepares(c, c.slots[i])
  {
    AudienceExactly(RefreshHashes(c.(slots := MapSlots(c.slots, s => PreparedSlot(c, s)))).slots);
    forall s ensures PreparedSlot(c, s) == Prepares(c, s) {}
    hide AudienceRows, PreparedSlot, Prepares;
  }

  /** The search ends in the approval with at least one message, and raises otherwise; a campaign that waits for its
      approval is prepared again, and any other left alone. */
  lemma MovesExactly(c: Campaign, finished: bool)
    ensures MoveToApproval(c, finished).Some? <==>
              c.state == Discovering && finished && c.pdfsValid
              && exists i :: 0 <= i < |c.slots| && (c.slots[i].message.Some? || Fit(c.slots[i].enrollment))
    ensures MoveToApproval(c, finished).Some? ==>
              MoveToApproval(c, finished).value == PrepareMessages(c).value.(state := AwaitingApproval)
    ensures RefreshReview(c) == if c.state == AwaitingApproval then PrepareMessages(c) else Some(c)
  {
    PreparesExactly(c);
    if c.pdfsValid {
      var after := PrepareMessages(c).value;
      forall i | 0 <= i < |c.slots|
        ensures after.slots[i].message.Some? <==> c.slots[i].message.Some? || Fit(c.slots[i].enrollment)
      {
        assert after.slots[i] == Prepares(c, c.slots[i]);
      }
    }
    hide PrepareMessages, Prepares, Fit;
  }

  // ---------- approving ----------

  /** The message may go: its enrolment is fit and still has the message's email. */
  predicate MayGo(s: Slot) {
    s.message.Some? && Fit(s.enrollment) && s.enrollment.selected == Some(s.message.value.email)
  }

  predicate OtherFiles(c: Campaign, s: Slot) {
    s.message.Some? && s.message.value.pdfs.Some? && s.message.value.pdfs != Some(c.pdfs)
  }

  predicate Ready(s: Slot) {
    s.message.Some? && s.message.value.state == MessagePrepared
  }

  predicate Picked(s: Slot) {
    Ready(s) && s.message.value.approvedAt.Some?
  }

  function Sends(c: Campaign, m: Message, approvedAt: Option<int>): Message {
    Message(Queued, m.email, m.content, approvedAt, if m.pdfs == None then Some(c.pdfs) else m.pdfs)
  }

  function Cancels(s: Slot, state: EnrollmentState): Slot
    requires s.message.Some?
  {
    var m := s.message.value;
    Slot(Placed(s.enrollment, state), Some(Message(MessageCancelled, m.email, m.content, m.approvedAt, m.pdfs)))
  }

  /** An approval is accepted exactly for a whole campaign that waits for it, with valid files, unchanged audience,
      files, schedule and text, no message ready to go with other files, and at least one ready to go. */
  lemma ApprovesExactly(c: Campaign, now: int)
    ensures ApproveCampaign(c, now).Some? <==>
              && c.state == AwaitingApproval && !c.perMessage && c.pdfsValid
              && c.audienceHash == AudienceRows(c.slots) && c.pdfHash == c.pdfs && c.scheduleHash == c.schedule
              && c.contentHash == Fixed(c.content)
              && (forall i :: 0 <= i < |c.slots| && Ready(c.slots[i]) && MayGo(c.slots[i]) ==>
                    !OtherFiles(c, c.slots[i]))
              && exists i :: 0 <= i < |c.slots| && Ready(c.slots[i]) && MayGo(c.slots[i])
  {
    hide AudienceRows, MapSlots;
    assert forall i :: 0 <= i < |c.slots| ==>
        && (AwaitsCampaign(c.slots[i]) <==> Ready(c.slots[i])) && (Passes(c.slots[i]) <==> MayGo(c.slots[i]))
        && (PdfsDiffer(c, c.slots[i]) <==> MayGo(c.slots[i]) && OtherFiles(c, c.slots[i]));
  }

  /** Then ready messages that may go are queued and stamped, the other ready ones cancelled with their enrolment, and
      the rest stays; the hashes are fresh and the campaign runs. */
  lemma ApprovedRows(c: Campaign, now: int)
    requires ApproveCampaign(c, now).Some?
    ensures var after := ApproveCampaign(c, now).value;
            && after.state == Running && after.approvedAt == Some(now) && after.contentHash == c.contentHash
            && SameOtherwise(c, after.(state := c.state, approvedAt := c.approvedAt)) && Hashed(after)
            && |after.slots| == |c.slots|
            && forall i :: 0 <= i < |c.slots| ==>
                 var s := c.slots[i];
                 after.slots[i] == if !Ready(s) then s
                                   else if MayGo(s) then Slot(s.enrollment, Some(Sends(c, s.message.value, Some(now))))
                                   else Cancels(s, Ineligible)
  {
    AudienceExactly(ApproveCampaign(c, now).value.slots);
    hide AudienceRows, SnapshotHolds, AnyRaises, AnyGoesOut;
  }

  /** A start is accepted exactly for a campaign approved message by message that waits for it, with valid files, no
      picked message that may go with other files, and at least one picked that may go. */
  lemma StartsExactly(c: Campaign, now: int)
    ensures StartCampaign(c, now).Some? <==>
              && c.state == AwaitingApproval && c.perMessage && c.pdfsValid
              && (forall i :: 0 <= i < |c.slots| && Picked(c.slots[i]) && MayGo(c.slots[i]) ==>
                    !OtherFiles(c, c.slots[i]))
              && exists i :: 0 <= i < |c.slots| && Picked(c.slots[i]) && MayGo(c.slots[i])
  {
    hide AudienceRows, MapSlots, SelectedRows;
    assert forall i :: 0 <= i < |c.slots| ==>
        && (AwaitsStart(c.slots[i]) <==> Picked(c.slots[i])) && (Passes(c.slots[i]) <==> MayGo(c.slots[i]))
        && (PdfsDiffer(c, c.slots[i]) <==> MayGo(c.slots[i]) && OtherFiles(c, c.slots[i]));
  }

  /** The numbers and texts of the picked messages that may go, in the order of the slots. */
  ghost predicate Selects(rows: seq<(nat, nat)>, slots: seq<Slot>) {
    && (forall i: nat, content: nat :: (i, content) in rows <==>
          i < |slots| && Picked(slots[i]) && MayGo(slots[i]) && slots[i].message.value.content == content)
    && forall a, b :: 0 <= a < b < |rows| ==> rows[a].0 < rows[b].0
  }

  predicate Goes(s: Slot, content: nat) {
    Picked(s) && MayGo(s) && s.message.value.content == content
  }

  lemma GoesExactly(s: Slot)
    ensures AwaitsStart(s) && Passes(s) <==> Picked(s) && MayGo(s)
  {
  }

  lemma {:induction false} SelectedMember(slots: seq<Slot>, i: nat, content: nat)
    ensures (i, content) in SelectedRows(slots) <==> i < |slots| && Goes(slots[i], content)
  {
    if slots != [] {
      var n := |slots| - 1;
      SelectedMember(slots[..n], i, content);
      GoesExactly(slots[n]);
      hide AwaitsStart, Passes, Picked, MayGo;
    }
  }

  lemma {:induction false} SelectedExactly(slots: seq<Slot>)
    ensures Selects(SelectedRows(slots), slots)
    ensures forall a :: 0 <= a < |SelectedRows(slots)| ==> SelectedRows(slots)[a].0 < |slots|
  {
    forall i: nat, content: nat
      ensures (i, content) in SelectedRows(slots) <==> i < |slots| && Goes(slots[i], content)
    {
      SelectedMember(slots, i, content);
    }
    SelectedInOrder(slots);
    hide AwaitsStart, Passes, Picked, MayGo, SelectedRows;
  }

  lemma {:induction false} SelectedInOrder(slots: seq<Slot>)
    ensures forall a :: 0 <= a < |SelectedRows(slots)| ==> SelectedRows(slots)[a].0 < |slots|
    ensures forall a, b :: 0 <= a < b < |SelectedRows(slots)| ==> SelectedRows(slots)[a].0 < SelectedRows(slots)[b].0
  {
    hide AwaitsStart, Passes;
    if slots != [] { SelectedInOrder(slots[..|slots| - 1]); }
  }

  /** A message goes out when it is queued and stamped. */
  lemma GoesOutExactly(s: Slot)
    ensures Approval.GoesOut(s) <==>
              s.message.Some? && s.message.value.state == Queued && s.message.value.approvedAt != None
  {
  }

  /** Then picked messages that may go are queued, the other picked ones cancelled with their enrolment, and every other
      message is withdrawn, cancelled if it was still up for review; the text hash lists what goes. */
  lemma StartedRows(c: Campaign, now: int)
    requires StartCampaign(c, now).Some?
    ensures var after := StartCampaign(c, now).value;
            && after.state == Running && after.approvedAt == Some(now)
            && after.contentHash.PerMessage? && Selects(after.contentHash.rows, c.slots)
            && SameOtherwise(c, after.(state := c.state, approvedAt := c.approvedAt, contentHash := c.contentHash))
            && Hashed(after) && |after.slots| == |c.slots|
            && forall i :: 0 <= i < |c.slots| ==>
                 var s := c.slots[i];
                 after.slots[i]
                 == if s.message == None then s
                    else if !Picked(s) then
                      (if s.message.value.state == ReviewReady then Cancels(s, Withdrawn)
                       else Slot(Placed(s.enrollment, Withdrawn), s.message))
                    else if MayGo(s) then
                      Slot(s.enrollment, Some(Sends(c, s.message.value, s.message.value.approvedAt)))
                    else Cancels(s, Ineligible)
  {
    AudienceExactly(StartCampaign(c, now).value.slots);
    SelectedExactly(c.slots);
    hide AudienceRows, SelectedRows, AnyRaises, AnyGoesOut;
  }
}
