/**
 Preparing and approving a campaign (`campaigns/approval.py`).

 A slot is one enrolment with its initial message, whose key allows one per enrolment. A hash is the value it was
 computed from. `None` is a transaction that raised and left everything as it was.
 */
module Approval {
  import opened Common

  datatype EnrollmentState =
    | Discovered | Eligible | Prepared | InitialSent | Responded | ReminderDue | ReminderSent | Ineligible | Withdrawn

  /** What the eligibility checks other than the missing email say: not yet (an unfinished email validation, a business
      the audience filter removed), good, or lost for good (an organization that is a contact, an invalid email, a
      suppression or a restriction). */
  datatype Standing = NotYet | Good | Lost

  datatype Enrollment = Enrollment(state: EnrollmentState, selected: Option<nat>, standing: Standing)

  datatype MessageState = ReviewReady | MessagePrepared | Queued | Sent | MessageCancelled | SendFailed

  /** `content` stands for subject, body and revision; `pdfs` for the attachment snapshot. */
  datatype Message = Message(state: MessageState, email: nat, content: nat, approvedAt: Option<int>, pdfs: Option<nat>)

  datatype Slot = Slot(enrollment: Enrollment, message: Option<Message>)

  datatype CampaignState = Discovering | AwaitingApproval | Running | Paused | StoppedError | CampaignCancelled

  datatype ContentHash = Fixed(content: nat) | PerMessage(rows: seq<(nat, nat)>)

  datatype Campaign = Campaign(
    state: CampaignState,
    perMessage: bool,
    slots: seq<Slot>,
    pdfs: nat,
    pdfsValid: bool,
    schedule: nat,
    content: nat,
    audienceHash: seq<(nat, nat)>,
    pdfHash: nat,
    scheduleHash: nat,
    contentHash: ContentHash,
    approvedAt: Option<int>)

  // ---------- audience and hashes ----------

  predicate InAudience(s: Slot) {
    s.enrollment.state in {Eligible, Prepared} && s.enrollment.selected.Some?
  }

  /** `_audience_rows`: the enrolment and its email, in a fixed order. */
  function AudienceRows(slots: seq<Slot>): seq<(nat, nat)> {
    if slots == [] then []
    else
      var n := |slots| - 1;
      AudienceRows(slots[..n]) + (if InAudience(slots[n]) then [(n, slots[n].enrollment.selected.value)] else [])
  }

  lemma {:induction false} RowsAreTheAudience(slots: seq<Slot>, i: nat, email: nat)
    ensures (i, email) in AudienceRows(slots) <==>
              i < |slots| && InAudience(slots[i]) && slots[i].enrollment.selected == Some(email)
  {
    if slots != [] { RowsAreTheAudience(slots[..|slots| - 1], i, email); }
  }

  function RefreshHashes(c: Campaign): Campaign {
    c.(audienceHash := AudienceRows(c.slots), pdfHash := c.pdfs, scheduleHash := c.schedule)
  }

  // ---------- preparing ----------

  predicate Terminal(s: EnrollmentState) {
    s in {InitialSent, Responded, ReminderSent, Withdrawn}
  }

  /** `enrollment_eligibility`. */
  predicate Clear(e: Enrollment) {
    e.selected.Some? && e.standing.Good?
  }

  /** `refresh_enrollment_eligibility`. */
  function Refreshed(e: Enrollment): Enrollment {
    if Terminal(e.state) then e else e.(state := if Clear(e) then Eligible else Ineligible)
  }

  function Initial(c: Campaign, email: nat): Message {
    Message(if c.perMessage then ReviewReady else MessagePrepared, email, c.content, None, Some(c.pdfs))
  }

  /** One turn of `prepare_fixed_initial_messages`: an existing message is kept as it is, whatever its state. */
  function PreparedSlot(c: Campaign, s: Slot): Slot {
    var e := Refreshed(s.enrollment);
    if !Clear(e) then s.(enrollment := e)
    else
      var m := if s.message.Some? then s.message.value else Initial(c, e.selected.value);
      Slot(e.(state := Prepared), Some(m.(pdfs := if m.pdfs.Some? then m.pdfs else Some(c.pdfs))))
  }

  function MapSlots(slots: seq<Slot>, f: Slot -> Slot): (r: seq<Slot>)
    ensures |r| == |slots| && forall i :: 0 <= i < |slots| ==> r[i] == f(slots[i])
  {
    seq(|slots|, i requires 0 <= i < |slots| => f(slots[i]))
  }

  function PrepareMessages(c: Campaign): Option<Campaign> {
    if !c.pdfsValid then None
    else Some(RefreshHashes(c.(slots := MapSlots(c.slots, s => PreparedSlot(c, s)))))
  }

  /** `refresh_review_audience`. */
  function RefreshReview(c: Campaign): Option<Campaign> {
    if c.state.AwaitingApproval? then PrepareMessages(c) else Some(c)
  }

  /** `move_campaign_to_approval`, once the search has finished. */
  function MoveToApproval(c: Campaign, finished: bool): Option<Campaign> {
    if !c.state.Discovering? || !finished then None
    else
      var prepared := PrepareMessages(c);
      if prepared.None? then None
      else if forall i :: 0 <= i < |prepared.value.slots| ==> prepared.value.slots[i].message.None? then None
      else Some(prepared.value.(state := AwaitingApproval))
  }

  // ---------- approving ----------

  /** `_recheck_prepared_message` finds nothing to object. */
  predicate Passes(s: Slot) {
    s.message.Some? && Clear(s.enrollment) && s.enrollment.selected == Some(s.message.value.email)
  }

  /** The recheck raises when a passing message carries other PDFs. */
  predicate PdfsDiffer(c: Campaign, s: Slot) {
    Passes(s) && s.message.value.pdfs.Some? && s.message.value.pdfs.value != c.pdfs
  }

  function Dropped(s: Slot): Slot
    requires s.message.Some?
  {
    Slot(s.enrollment.(state := Ineligible), Some(s.message.value.(state := MessageCancelled)))
  }

  predicate AwaitsCampaign(s: Slot) {
    s.message.Some? && s.message.value.state.MessagePrepared?
  }

  predicate AwaitsStart(s: Slot) {
    AwaitsCampaign(s) && s.message.value.approvedAt.Some?
  }

  function WithPdfs(c: Campaign, m: Message): Message {
    m.(pdfs := if m.pdfs.Some? then m.pdfs else Some(c.pdfs))
  }

  /** One turn of `approve_campaign`. */
  function ApprovedSlot(c: Campaign, s: Slot, now: int): Slot {
    if !AwaitsCampaign(s) then s
    else if !Passes(s) then Dropped(s)
    else s.(message := Some(WithPdfs(c, s.message.value).(state := Queued, approvedAt := Some(now))))
  }

  /** Both loops of `start_per_message_campaign` on one message. */
  function StartedSlot(c: Campaign, s: Slot): Slot {
    if s.message.None? then s
    else if !AwaitsStart(s) then
      Slot(s.enrollment.(state := Withdrawn),
           Some(s.message.value.(state := if s.message.value.state.ReviewReady? then MessageCancelled
                                          else s.message.value.state)))
    else if !Passes(s) then Dropped(s)
    else s.(message := Some(WithPdfs(c, s.message.value).(state := Queued)))
  }

  /** `_validate_campaign_approval_snapshot`. */
  predicate SnapshotHolds(c: Campaign) {
    && c.audienceHash == AudienceRows(c.slots) && c.pdfHash == c.pdfs && c.scheduleHash == c.schedule
    && c.contentHash == Fixed(c.content)
  }

  predicate AnyGoesOut(c: Campaign, awaits: Slot -> bool) {
    exists i :: 0 <= i < |c.slots| && awaits(c.slots[i]) && Passes(c.slots[i])
  }

  predicate AnyRaises(c: Campaign, awaits: Slot -> bool) {
    exists i :: 0 <= i < |c.slots| && awaits(c.slots[i]) && PdfsDiffer(c, c.slots[i])
  }

  /** `approve_campaign`. */
  function ApproveCampaign(c: Campaign, now: int): Option<Campaign> {
    if !c.state.AwaitingApproval? || c.perMessage || !c.pdfsValid || !SnapshotHolds(c) then None
    else if AnyRaises(c, AwaitsCampaign) || !AnyGoesOut(c, AwaitsCampaign) then None
    else
      var approved := c.(slots := MapSlots(c.slots, s => ApprovedSlot(c, s, now)));
      Some(RefreshHashes(approved).(state := Running, approvedAt := Some(now)))
  }

  /** The selected messages in order, as the content hash lists them. */
  function SelectedRows(slots: seq<Slot>): seq<(nat, nat)> {
    if slots == [] then []
    else
      var n := |slots| - 1;
      SelectedRows(slots[..n])
      + (if AwaitsStart(slots[n]) && Passes(slots[n]) then [(n, slots[n].message.value.content)] else [])
  }

  /** `start_per_message_campaign`. */
  function StartCampaign(c: Campaign, now: int): Option<Campaign> {
    if !c.state.AwaitingApproval? || !c.perMessage || !c.pdfsValid then None
    else if AnyRaises(c, AwaitsStart) || !AnyGoesOut(c, AwaitsStart) then None
    else
      var started := c.(slots := MapSlots(c.slots, s => StartedSlot(c, s)));
      Some(RefreshHashes(started).(state := Running, approvedAt := Some(now),
                                   contentHash := PerMessage(SelectedRows(c.slots))))
  }

  // ---------- an approval authorises an exact audience ----------

  predicate GoesOut(s: Slot) {
    s.message.Some? && s.message.value.state.Queued? && s.message.value.approvedAt.Some?
  }

  ghost predicate ExactAudience(slots: seq<Slot>) {
    forall i :: 0 <= i < |slots| ==> (InAudience(slots[i]) <==> GoesOut(slots[i]))
  }

  /** What `approve_campaign` needs of a slot: a prepared message that would pass belongs to an enrolment of the
      audience, and an enrolment of the audience has a prepared message. */
  predicate ReadyForCampaign(s: Slot) {
    if AwaitsCampaign(s) then Passes(s) ==> InAudience(s) else InAudience(s) <==> GoesOut(s)
  }

  /** What `start_per_message_campaign` needs: an enrolment of the audience has a message, and an approved message that
      would pass belongs to the audience. */
  predicate ReadyToStart(s: Slot) {
    if s.message.None? then !InAudience(s)
    else if AwaitsStart(s) then Passes(s) ==> InAudience(s)
    else !GoesOut(s)
  }

  lemma ApprovedSlotExact(c: Campaign, s: Slot, now: int)
    ensures (InAudience(ApprovedSlot(c, s, now)) <==> GoesOut(ApprovedSlot(c, s, now))) <==> ReadyForCampaign(s)
    ensures AwaitsCampaign(s) && Passes(s) ==> GoesOut(ApprovedSlot(c, s, now))
  {
  }

  lemma StartedSlotExact(c: Campaign, s: Slot)
    ensures (InAudience(StartedSlot(c, s)) <==> GoesOut(StartedSlot(c, s))) <==> ReadyToStart(s)
    ensures AwaitsStart(s) && Passes(s) ==> GoesOut(StartedSlot(c, s))
  {
  }

  /** What every accepted approval leaves: the campaign runs, the stored hash describes the enrolments now in the
      audience, and somebody goes out. */
  ghost predicate Authorised(c: Campaign) {
    && c.state.Running? && c.approvedAt.Some?
    && (forall i: nat, email: nat :: (i, email) in c.audienceHash <==>
          i < |c.slots| && InAudience(c.slots[i]) && c.slots[i].enrollment.selected == Some(email))
    && exists i :: 0 <= i < |c.slots| && GoesOut(c.slots[i])
  }

  lemma HashDescribes(slots: seq<Slot>)
    ensures forall i: nat, email: nat :: (i, email) in AudienceRows(slots) <==>
              i < |slots| && InAudience(slots[i]) && slots[i].enrollment.selected == Some(email)
  {
    forall i: nat, email: nat ensures (i, email) in AudienceRows(slots) <==>
              i < |slots| && InAudience(slots[i]) && slots[i].enrollment.selected == Some(email)
    {
      RowsAreTheAudience(slots, i, email);
    }
  }

  /** What leaves anew was prepared for the email selected now, passes every check, and carries the campaign's PDFs. */
  ghost predicate OnlyPassingLeave(before: Campaign, after: Campaign) {
    |after.slots| == |before.slots| &&
    forall i :: 0 <= i < |before.slots| && GoesOut(after.slots[i]) && !GoesOut(before.slots[i]) ==>
      && Passes(before.slots[i])
      && Some(after.slots[i].message.value.email) == before.slots[i].enrollment.selected
      && after.slots[i].message.value.content == before.slots[i].message.value.content
      && after.slots[i].message.value.pdfs == Some(before.pdfs)
  }

  lemma ApprovalLetsOnlyPassingLeave(c: Campaign, now: int)
    ensures ApproveCampaign(c, now).Some? ==> OnlyPassingLeave(c, ApproveCampaign(c, now).value)
  {
    if ApproveCampaign(c, now).Some? {
      forall i | 0 <= i < |c.slots| && AwaitsCampaign(c.slots[i]) ensures !PdfsDiffer(c, c.slots[i]) {}
      hide AudienceRows, SnapshotHolds, AnyGoesOut;
    }
  }

  lemma StartLetsOnlyPassingLeave(c: Campaign, now: int)
    ensures StartCampaign(c, now).Some? ==> OnlyPassingLeave(c, StartCampaign(c, now).value)
  {
    if StartCampaign(c, now).Some? {
      forall i | 0 <= i < |c.slots| && AwaitsStart(c.slots[i]) ensures !PdfsDiffer(c, c.slots[i]) {}
      hide AudienceRows, SelectedRows, AnyGoesOut;
    }
  }

  /** Campaign approval authorises exactly the audience it stores, if and only if every slot was ready. */
  lemma CampaignApprovalIsExact(c: Campaign, now: int)
    requires ApproveCampaign(c, now).Some?
    ensures var c' := ApproveCampaign(c, now).value;
            && Authorised(c')
            && (ExactAudience(c'.slots) <==> forall i :: 0 <= i < |c.slots| ==> ReadyForCampaign(c.slots[i]))
  {
    var c' := ApproveCampaign(c, now).value;
    HashDescribes(c'.slots);
    var out :| 0 <= out < |c.slots| && AwaitsCampaign(c.slots[out]) && Passes(c.slots[out]);
    forall i | 0 <= i < |c.slots|
      ensures c'.slots[i] == ApprovedSlot(c, c.slots[i], now)
      ensures (InAudience(c'.slots[i]) <==> GoesOut(c'.slots[i])) <==> ReadyForCampaign(c.slots[i])
    {
      ApprovedSlotExact(c, c.slots[i], now);
    }
    ApprovedSlotExact(c, c.slots[out], now);
    hide ApprovedSlot, AudienceRows, InAudience, GoesOut, ReadyForCampaign;
    assert GoesOut(c'.slots[out]);
  }

  /** Starting a per-message campaign authorises exactly the audience it stores, if and only if every slot was ready. */
  lemma PerMessageStartIsExact(c: Campaign, now: int)
    requires StartCampaign(c, now).Some?
    ensures var c' := StartCampaign(c, now).value;
            && Authorised(c')
            && (ExactAudience(c'.slots) <==> forall i :: 0 <= i < |c.slots| ==> ReadyToStart(c.slots[i]))
  {
    var c' := StartCampaign(c, now).value;
    HashDescribes(c'.slots);
    var out :| 0 <= out < |c.slots| && AwaitsStart(c.slots[out]) && Passes(c.slots[out]);
    forall i | 0 <= i < |c.slots|
      ensures c'.slots[i] == StartedSlot(c, c.slots[i])
      ensures (InAudience(c'.slots[i]) <==> GoesOut(c'.slots[i])) <==> ReadyToStart(c.slots[i])
    {
      StartedSlotExact(c, c.slots[i]);
    }
    StartedSlotExact(c, c.slots[out]);
    hide StartedSlot, AudienceRows, InAudience, GoesOut, ReadyToStart, SelectedRows;
    assert GoesOut(c'.slots[out]);
  }

  // ---------- preparation makes a campaign ready ----------

  /** After preparation the audience is exactly the eligible enrolments, and each of them has an initial message. */
  lemma PreparationCoversAudience(c: Campaign, i: nat)
    requires PrepareMessages(c).Some? && i < |c.slots|
    ensures var s' := PrepareMessages(c).value.slots[i];
            && (InAudience(s') <==> Clear(c.slots[i].enrollment))
            && (InAudience(s') ==> s'.message.Some?)
            && (c.slots[i].message.Some? ==>
                  s'.message.Some? && s'.message.value.state == c.slots[i].message.value.state)
            && (c.slots[i].message.None? && s'.message.Some? ==> InAudience(s'))
  {
    assert PrepareMessages(c).value.slots[i] == PreparedSlot(c, c.slots[i]);
  }

  /** A campaign prepared for the first time and approved at once is ready, on either path. */
  lemma FreshPreparationIsReady(c: Campaign)
    requires PrepareMessages(c).Some? && forall i :: 0 <= i < |c.slots| ==> c.slots[i].message.None?
    ensures var slots := PrepareMessages(c).value.slots;
            forall i :: 0 <= i < |slots| ==>
              (!c.perMessage ==> ReadyForCampaign(slots[i])) && ReadyToStart(slots[i])
  {
    forall i | 0 <= i < |c.slots|
      ensures (!c.perMessage ==> ReadyForCampaign(PrepareMessages(c).value.slots[i]))
              && ReadyToStart(PrepareMessages(c).value.slots[i])
    {
      assert PrepareMessages(c).value.slots[i] == PreparedSlot(c, c.slots[i]);
    }
  }
}
