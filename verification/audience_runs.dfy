/**
 A campaign from its search to its approval (`campaigns/approval.py` with the writers of enrolments and initial messages
 in `contacts/services.py`, `prospects/services.py`, `campaigns/review.py` and `campaigns/services.py`), one transaction
 a step.
 */
module AudienceRuns {
  import opened Common
  import opened Approval

  datatype Op =
    | Enrol(email: Option<nat>, standing: Standing)
    | Resolve(slot: nat, email: Option<nat>, standing: Standing)
    | Gain(slot: nat)
    | Skip(slot: nat)
    | Lose(slot: nat)
    | BecomesContact(slot: nat, replied: bool)
    | FinishSearch(finished: bool)
    | StopSearch
    | RefreshAudience
    | Edit(slot: nat, content: nat)
    | Release(slot: nat, now: int)
    | ChangeFiles(pdfs: nat, valid: bool)
    | ChangeSchedule(schedule: nat)
    | ChangeText(content: nat)
    | Approve(now: int)
    | Start(now: int)
    | Pause
    | Search
    | Resume
    | Cancel

  function WithSlot(c: Campaign, i: nat, s: Slot): Campaign
    requires i < |c.slots|
  {
    c.(slots := c.slots[i := s])
  }

  function WithStanding(s: Slot, standing: Standing): Slot {
    s.(enrollment := s.enrollment.(standing := standing))
  }

  /** `ensure_prospect_enrollment` on an enrolment that exists: an email is only ever chosen where there was none. */
  function Resolved(s: Slot, email: Option<nat>, standing: Standing): Slot {
    var e := s.enrollment;
    s.(enrollment := Refreshed(if e.selected.None? && email.Some?
                               then e.(selected := email, standing := standing) else e))
  }

  predicate Pending(s: MessageState) {
    s in {MessagePrepared, ReviewReady, Queued}
  }

  function CancelPending(m: Option<Message>): Option<Message> {
    if m.Some? && Pending(m.value.state) then Some(m.value.(state := MessageCancelled)) else m
  }

  function CancelledSlot(s: Slot): Slot {
    s.(message := CancelPending(s.message))
  }

  /** `cancel_pending_campaign_work`: the organization is a contact from now on. */
  function ContactSlot(s: Slot, replied: bool): Slot {
    var state := if replied then Responded
                 else if s.enrollment.state in {Responded, InitialSent, ReminderSent, Withdrawn}
                 then s.enrollment.state else Ineligible;
    Slot(s.enrollment.(state := state, standing := Lost), CancelPending(s.message))
  }

  /** `can_approve_message` and the eligibility check of `approve_message_for_delivery`. */
  predicate MayRelease(c: Campaign, s: Slot) {
    c.state.AwaitingApproval? && c.perMessage && Passes(s)
    && s.message.value.state.ReviewReady? && s.message.value.approvedAt.None?
  }

  function Released(s: Slot, now: int): Slot
    requires s.message.Some?
  {
    s.(message := Some(s.message.value.(state := MessagePrepared, approvedAt := Some(now))))
  }

  function Keep(c: Campaign, result: Option<Campaign>): Campaign {
    if result.Some? then result.value else c
  }

  /** The step of one slot; a slot that is not there changes nothing. */
  function SlotStep(c: Campaign, op: Op, s: Slot): Slot {
    match op
    case Resolve(_, email, standing) => Resolved(s, email, standing)
    case Gain(_) => if s.enrollment.standing.NotYet? then WithStanding(s, Good) else s
    case Skip(_) =>
      if (c.state.Discovering? || c.state.Running?) && s.enrollment.standing.Good? then WithStanding(s, NotYet) else s
    case Lose(_) => WithStanding(s, Lost)
    case BecomesContact(_, replied) => ContactSlot(s, replied)
    case Edit(_, content) =>
      if c.state.AwaitingApproval? && c.perMessage && s.message.Some? && s.message.value.state.ReviewReady?
         && s.message.value.approvedAt.None?
      then s.(message := Some(s.message.value.(content := content))) else s
    case Release(_, now) => if MayRelease(c, s) then Released(s, now) else s
    case _ => s
  }

  predicate OnSlot(op: Op) {
    op.Resolve? || op.Gain? || op.Skip? || op.Lose? || op.BecomesContact? || op.Edit? || op.Release?
  }

  function Step(c: Campaign, op: Op): Campaign {
    if OnSlot(op) then
      if op.slot < |c.slots| then WithSlot(c, op.slot, SlotStep(c, op, c.slots[op.slot])) else c
    else
      match op
      case Enrol(email, standing) =>
        c.(slots := c.slots + [Slot(Refreshed(Enrollment(Discovered, email, standing)), None)])
      case FinishSearch(finished) => Keep(c, MoveToApproval(c, finished))
      case StopSearch => if c.state.Discovering? then c.(state := StoppedError) else c
      case RefreshAudience => Keep(c, RefreshReview(c))
      case ChangeFiles(pdfs, valid) => c.(pdfs := pdfs, pdfsValid := valid)
      case ChangeSchedule(schedule) => c.(schedule := schedule)
      case ChangeText(content) => c.(content := content)
      case Approve(now) => Keep(c, ApproveCampaign(c, now))
      case Start(now) => Keep(c, StartCampaign(c, now))
      case Pause => if c.state.Discovering? || c.state.Running? then c.(state := Paused) else c
      case Search => if c.state.Paused? then c.(state := Discovering) else c
      case Resume => if c.state.Paused? && c.approvedAt.Some? then c.(state := Running) else c
      case Cancel =>
        if c.state in {Discovering, AwaitingApproval, Running, Paused} then
          c.(state := CampaignCancelled, slots := MapSlots(c.slots, s => CancelledSlot(s)))
        else c
      case _ => c
  }

  function Final(c: Campaign, ops: seq<Op>): Campaign
    decreases |ops|
  {
    if ops == [] then c else Final(Step(c, ops[0]), ops[1..])
  }

  /** A search that has just begun. */
  predicate Begun(c: Campaign) {
    c.state.Discovering? && c.slots == [] && c.approvedAt.None?
  }
}
