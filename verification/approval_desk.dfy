/**
 Campaign approval in its own, imperative form (`campaigns/approval.py`): the loops change slot after slot, and a
 transaction that raises restores the rows it found.
 */
module ApprovalDesk {
  import opened Common
  import opened Approval

  lemma ApprovalAuthorises(c: Campaign, now: int)
    ensures Approval.ApproveCampaign(c, now).Some? ==> Authorised(Approval.ApproveCampaign(c, now).value)
  {
    hide Approval.ApproveCampaign, Authorised;
    if Approval.ApproveCampaign(c, now).Some? { CampaignApprovalIsExact(c, now); }
  }

  lemma StartAuthorises(c: Campaign, now: int)
    ensures StartCampaign(c, now).Some? ==> Authorised(StartCampaign(c, now).value)
  {
    hide StartCampaign, Authorised;
    if StartCampaign(c, now).Some? { PerMessageStartIsExact(c, now); }
  }

  class Desk {
    var campaign: Campaign

    constructor (campaign: Campaign)
      ensures this.campaign == campaign
    {
      this.campaign := campaign;
    }

    /** Every slot is refreshed, and every eligible one gets its message unless it has one. */
    method PrepareFixedInitialMessages() returns (ok: bool)
      modifies this
      ensures ok == PrepareMessages(old(campaign)).Some?
      ensures campaign == if ok then PrepareMessages(old(campaign)).value else old(campaign)
      ensures forall i :: 0 <= i < |old(campaign).slots| ==>
                && i < |campaign.slots|
                && (old(campaign).slots[i].message.Some? ==>
                      campaign.slots[i].message.Some?
                      && campaign.slots[i].message.value.state == old(campaign).slots[i].message.value.state
                      && campaign.slots[i].message.value.email == old(campaign).slots[i].message.value.email)
    {
      if !campaign.pdfsValid { return false; }
      ghost var c := campaign;
      var slots := campaign.slots;
      for i := 0 to |slots|
        invariant |slots| == |c.slots|
        invariant forall j :: 0 <= j < |slots| ==> slots[j] == if j < i then PreparedSlot(c, c.slots[j]) else c.slots[j]
      {
        var e := Refreshed(slots[i].enrollment);
        if !Clear(e) {
          slots := slots[i := slots[i].(enrollment := e)];
          continue;
        }
        var message := if slots[i].message.Some? then slots[i].message.value else Initial(campaign, e.selected.value);
        if message.pdfs.None? { message := message.(pdfs := Some(campaign.pdfs)); }
        slots := slots[i := Slot(e.(state := Prepared), Some(message))];
      }
      assert slots == MapSlots(c.slots, s => PreparedSlot(c, s));
      campaign := campaign.(slots := slots);
      campaign := RefreshHashes(campaign);
      ok := true;
    }

    /** A refused approval changes nothing. */
    method ApproveCampaign(now: int) returns (ok: bool)
      modifies this
      ensures ok == Approval.ApproveCampaign(old(campaign), now).Some?
      ensures campaign == if ok then Approval.ApproveCampaign(old(campaign), now).value else old(campaign)
      ensures ok ==> Authorised(campaign) && OnlyPassingLeave(old(campaign), campaign)
    {
      var c := campaign;
      ApprovalLetsOnlyPassingLeave(c, now);
      ApprovalAuthorises(c, now);
      hide Authorised, OnlyPassingLeave;
      if !c.state.AwaitingApproval? || c.perMessage || !c.pdfsValid || !SnapshotHolds(c) { return false; }
      var approvedCount := 0;
      var slots := c.slots;
      for i := 0 to |slots|
        invariant |slots| == |c.slots| && c == old(campaign)
        invariant forall j :: 0 <= j < i ==> !(AwaitsCampaign(c.slots[j]) && PdfsDiffer(c, c.slots[j]))
        invariant approvedCount > 0 <==> exists j :: 0 <= j < i && AwaitsCampaign(c.slots[j]) && Passes(c.slots[j])
        invariant approvedCount >= 0
        invariant forall j :: 0 <= j < |slots| ==>
          slots[j] == if j < i then ApprovedSlot(c, c.slots[j], now) else c.slots[j]
      {
        var slot := slots[i];
        if !AwaitsCampaign(slot) { continue; }
        if !Passes(slot) {
          slots := slots[i := Dropped(slot)];
          continue;
        }
        if PdfsDiffer(c, slot) {
          campaign := c;
          assert AnyRaises(c, AwaitsCampaign);
          return false;
        }
        var message := WithPdfs(c, slot.message.value).(state := Queued, approvedAt := Some(now));
        slots := slots[i := slot.(message := Some(message))];
        campaign := campaign.(slots := slots);
        approvedCount := approvedCount + 1;
      }
      if approvedCount == 0 {
        campaign := c;
        return false;
      }
      assert slots == MapSlots(c.slots, s => ApprovedSlot(c, s, now));
      campaign := RefreshHashes(c.(slots := slots)).(state := Running, approvedAt := Some(now));
      ok := true;
    }

    method StartPerMessageCampaign(now: int) returns (ok: bool)
      modifies this
      ensures ok == StartCampaign(old(campaign), now).Some?
      ensures campaign == if ok then StartCampaign(old(campaign), now).value else old(campaign)
      ensures ok ==> Authorised(campaign) && OnlyPassingLeave(old(campaign), campaign)
    {
      var c := campaign;
      StartLetsOnlyPassingLeave(c, now);
      StartAuthorises(c, now);
      hide Authorised, OnlyPassingLeave;
      if !c.state.AwaitingApproval? || !c.perMessage || !c.pdfsValid { return false; }
      var selected: seq<nat> := [];
      var slots := c.slots;
      for i := 0 to |slots|
        invariant |slots| == |c.slots|
        invariant forall j :: 0 <= j < i ==> !(AwaitsStart(c.slots[j]) && PdfsDiffer(c, c.slots[j]))
        invariant forall k :: 0 <= k < |selected| ==> selected[k] < i
        invariant forall j: nat :: j in selected <==> j < i && AwaitsStart(c.slots[j]) && Passes(c.slots[j])
        invariant forall j: nat :: j < |slots| ==>
          slots[j] == if j < i && j !in selected then StartedSlot(c, c.slots[j]) else c.slots[j]
      {
        var slot := slots[i];
        if slot.message.None? { continue; }
        var message := slot.message.value;
        if !AwaitsStart(slot) {
          if message.state.ReviewReady? { message := message.(state := MessageCancelled); }
          slots := slots[i := Slot(slot.enrollment.(state := Withdrawn), Some(message))];
          continue;
        }
        if !Passes(slot) {
          slots := slots[i := Dropped(slot)];
          continue;
        }
        if PdfsDiffer(c, slot) {
          assert AnyRaises(c, AwaitsStart);
          return false;
        }
        selected := selected + [i];
      }
      if selected == [] { return false; }
      assert AnyGoesOut(c, AwaitsStart) by { assert selected[0] in selected; }
      for k := 0 to |selected|
        invariant |slots| == |c.slots|
        invariant forall j: nat :: j < |slots| && !(AwaitsStart(c.slots[j]) && Passes(c.slots[j])) ==>
          slots[j] == StartedSlot(c, c.slots[j])
        invariant forall j: nat :: j < |slots| && AwaitsStart(c.slots[j]) && Passes(c.slots[j]) ==>
          slots[j] == if j in selected[..k] then StartedSlot(c, c.slots[j]) else c.slots[j]
      {
        var i := selected[k];
        assert i in selected;
        assert selected[..k + 1] == selected[..k] + [i];
        var message := WithPdfs(c, c.slots[i].message.value).(state := Queued);
        slots := slots[i := c.slots[i].(message := Some(message))];
      }
      assert selected[..|selected|] == selected;
      assert slots == MapSlots(c.slots, s => StartedSlot(c, s));
      campaign := RefreshHashes(c.(slots := slots))
                    .(state := Running, approvedAt := Some(now), contentHash := PerMessage(SelectedRows(c.slots)));
      ok := true;
    }
  }
}
