/**
 The follow-up services in their own, imperative form (`automation/scheduled.py`): each method updates the rows in
 place and is proved against its transaction in `Scheduled`.
 */
module FollowUpDesk {
  import opened Common
  import opened Scheduled

  /** No earlier candidate belongs to the same contact. */
  predicate FirstOfItsContact(plans: seq<Plan>, candidates: seq<nat>, i: nat)
    requires i < |candidates| && forall j :: 0 <= j < |candidates| ==> candidates[j] < |plans|
  {
    forall j :: 0 <= j < i ==> plans[candidates[j]].contact != plans[candidates[i]].contact
  }

  lemma NotTheFirst(plans: seq<Plan>, candidates: seq<nat>, earlier: nat, i: nat)
    requires earlier < i < |candidates| && forall j :: 0 <= j < |candidates| ==> candidates[j] < |plans|
    requires plans[candidates[earlier]].contact == plans[candidates[i]].contact
    ensures !FirstOfItsContact(plans, candidates, i)
  {
  }

  lemma IsTheFirst(plans: seq<Plan>, candidates: seq<nat>, i: nat)
    requires i < |candidates| && forall j :: 0 <= j < |candidates| ==> candidates[j] < |plans|
    ensures FirstOfItsContact(plans, candidates[..i + 1], i) == FirstOfItsContact(plans, candidates, i)
    ensures (forall j :: 0 <= j < i ==> plans[candidates[j]].contact != plans[candidates[i]].contact) ==>
              FirstOfItsContact(plans, candidates, i)
  {
  }

  /** Attempts after the turns of the plans `chosen`. */
  function CreateAll(b: Book, chosen: seq<nat>, now: int): Book {
    if chosen == [] then b else CreateAttempt(CreateAll(b, chosen[..|chosen| - 1], now), chosen[|chosen| - 1], now)
  }

  /** One turn of the loop of `_reschedule_topic_approvals`. */
  function RescheduleTurn(b: Book, t: nat, now: int, p: nat): Book
    requires t < |b.topics| && p < |b.plans|
  {
    if !Follows(b.plans[p], t) then b
    else
      b.(plans := b.plans[p := Rescheduled(b.plans[p], b.topics[t], now)], attempts := CancelOpen(b.attempts, p, None))
  }

  ghost predicate RescheduleUpTo(b: Book, t: nat, now: int, n: nat, now': Book)
    requires t < |b.topics| && n <= |b.plans|
  {
    && now'.topics == b.topics && |now'.plans| == |b.plans|
    && (forall q :: 0 <= q < |b.plans| ==> now'.plans[q] == if q < n then RescheduledPlan(b, t, now, q) else b.plans[q])
    && now'.attempts.Keys == b.attempts.Keys
    && (forall k :: k in b.attempts ==>
          now'.attempts[k] == if k.plan < n then WithdrawnRow(b, t, k) else b.attempts[k])
  }

  lemma RescheduleStarts(b: Book, t: nat, now: int)
    requires t < |b.topics|
    ensures RescheduleUpTo(b, t, now, 0, b)
  {
  }

  lemma RescheduleContinues(b: Book, t: nat, now: int, n: nat, now': Book)
    requires t < |b.topics| && n < |b.plans| && RescheduleUpTo(b, t, now, n, now')
    ensures t < |now'.topics| && n < |now'.plans|
    ensures RescheduleUpTo(b, t, now, n + 1, RescheduleTurn(now', t, now, n))
    ensures |RescheduleTurn(now', t, now, n).plans| == |b.plans|
  {
    hide Rescheduled, Cancelled;
    assert now'.plans[n] == b.plans[n];
  }

  lemma RescheduleEnds(b: Book, t: nat, now: int, now': Book)
    requires t < |b.topics| && RescheduleUpTo(b, t, now, |b.plans|, now')
    ensures now' == RescheduleTopic(b, t, now)
  {
    var target := RescheduleTopic(b, t, now);
    assert now'.plans == target.plans;
    assert now'.attempts == target.attempts;
  }

  /** One turn of the loop of `record_genuine_contact_interaction`. */
  function InteractionTurn(b: Book, contact: nat, at: int, p: nat): Book
    requires WellFormed(b) && p < |b.plans|
  {
    if b.plans[p].contact != contact then b
    else
      var plan, cadence := b.plans[p], b.topics[b.plans[p].topic].cadence;
      b.(plans := b.plans[p := AfterInteraction(plan, cadence, at)],
         attempts := CancelOpen(b.attempts, p, Some(DueAfterInteraction(plan, cadence, at))))
  }

  /** The rows `now` are those of `b` after the turns of the plans below `n`. */
  ghost predicate InteractionUpTo(b: Book, contact: nat, at: int, n: nat, now: Book)
    requires WellFormed(b) && n <= |b.plans|
  {
    && now.topics == b.topics && |now.plans| == |b.plans|
    && (forall q :: 0 <= q < |b.plans| ==> now.plans[q] == if q < n then Moved(b, contact, at, q) else b.plans[q])
    && now.attempts.Keys == b.attempts.Keys
    && (forall k :: k in b.attempts ==>
          now.attempts[k] == if k.plan < n then Touched(b, contact, at, k) else b.attempts[k])
  }

  lemma InteractionStarts(b: Book, contact: nat, at: int)
    requires WellFormed(b)
    ensures InteractionUpTo(b, contact, at, 0, b)
  {
  }

  lemma InteractionContinues(b: Book, contact: nat, at: int, n: nat, now: Book)
    requires WellFormed(b) && WellFormed(now) && n < |b.plans| && InteractionUpTo(b, contact, at, n, now)
    ensures InteractionUpTo(b, contact, at, n + 1, InteractionTurn(now, contact, at, n))
    ensures WellFormed(InteractionTurn(now, contact, at, n))
    ensures |InteractionTurn(now, contact, at, n).plans| == |b.plans|
  {
    hide DueAfterInteraction, Cancelled, Latest;
    assert now.plans[n] == b.plans[n];
  }

  lemma InteractionEnds(b: Book, contact: nat, at: int, now: Book)
    requires WellFormed(b) && InteractionUpTo(b, contact, at, |b.plans|, now)
    ensures now == Interaction(b, contact, at)
  {
    var target := Interaction(b, contact, at);
    assert now.plans == target.plans && now.attempts == target.attempts;
  }

  /** Plans outside the chosen ones, their attempts, and every message that has left are as they were. */
  ghost predicate SparesOthers(b: Book, now: Book, chosen: Plan -> bool) {
    && |now.plans| == |b.plans| && now.attempts.Keys == b.attempts.Keys
    && (forall q :: 0 <= q < |b.plans| && !chosen(b.plans[q]) ==> now.plans[q] == b.plans[q])
    && (forall k :: k in b.attempts && k.plan < |b.plans| && !chosen(b.plans[k.plan]) ==>
          now.attempts[k] == b.attempts[k])
    && (forall k :: k in b.attempts && b.attempts[k].outbound.Some?
                    && b.attempts[k].outbound.value.state !in {ReviewReady, Queued} ==>
          now.attempts[k].outbound == b.attempts[k].outbound)
  }

  lemma RescheduleSpares(b: Book, t: nat, now: int)
    requires t < |b.topics|
    ensures SparesOthers(b, RescheduleTopic(b, t, now), p => Follows(p, t))
  {
    hide Rescheduled;
  }

  lemma InteractionSpares(b: Book, contact: nat, at: int)
    requires WellFormed(b)
    ensures SparesOthers(b, Interaction(b, contact, at), (p: Plan) => p.contact == contact)
  {
    hide AfterInteraction, DueAfterInteraction;
  }

  /** The first candidate of each contact, in the query's order. */
  function FirstOnes(plans: seq<Plan>, candidates: seq<nat>): seq<nat>
    requires forall i :: 0 <= i < |candidates| ==> candidates[i] < |plans|
  {
    if candidates == [] then []
    else
      var n := |candidates| - 1;
      var before := FirstOnes(plans, candidates[..n]);
      if FirstOfItsContact(plans, candidates, n) then before + [candidates[n]] else before
  }

  /** The attempt of a due plan for its date, when it is there and still to be processed. */
  predicate ToProcess(b: Book, p: nat, now: int) {
    p < |b.plans| && IsDue(b, p, now) && var key := Key(p, b.plans[p].nextDue.value);
    key in b.attempts ==> b.attempts[key].state.Due?
  }

  /** Turns of other plans decide nothing about this one. */
  lemma ToProcessAsBefore(b: Book, b': Book, p: nat, now: int)
    requires b'.plans == b.plans && b'.topics == b.topics
    requires forall k: Key :: k.plan == p ==> (k in b'.attempts <==> k in b.attempts)
    requires forall k: Key :: k.plan == p && k in b.attempts ==> b'.attempts[k] == b.attempts[k]
    ensures ToProcess(b', p, now) == ToProcess(b, p, now)
  {
  }

  /** The attempts handed on, in the order of the plans. */
  function HandedOn(b: Book, chosen: seq<nat>, now: int): seq<Key> {
    if chosen == [] then []
    else
      var p := chosen[|chosen| - 1];
      HandedOn(b, chosen[..|chosen| - 1], now)
      + (if ToProcess(b, p, now) then [Key(p, b.plans[p].nextDue.value)] else [])
  }

  /** Picked are exactly the candidates with no earlier one of their contact. */
  lemma {:induction false} PicksExactly(plans: seq<Plan>, candidates: seq<nat>, p: nat)
    requires forall i :: 0 <= i < |candidates| ==> candidates[i] < |plans|
    ensures p in FirstOnes(plans, candidates) <==>
              exists i :: 0 <= i < |candidates| && candidates[i] == p
                          && forall j :: 0 <= j < i ==> plans[candidates[j]].contact != plans[p].contact
  {
    if candidates != [] {
      var n := |candidates| - 1;
      PicksExactly(plans, candidates[..n], p);
      if i :| 0 <= i < |candidates| && candidates[i] == p
              && forall j :: 0 <= j < i ==> plans[candidates[j]].contact != plans[p].contact
      {
        assert i < n ==> candidates[..n][i] == p;
      }
    }
  }

  lemma FirstsArePicked(plans: seq<Plan>, candidates: seq<nat>, i: nat)
    requires forall j :: 0 <= j < |candidates| ==> candidates[j] < |plans|
    requires i < |candidates| && FirstOfItsContact(plans, candidates, i)
    ensures candidates[i] in FirstOnes(plans, candidates)
  {
    PicksExactly(plans, candidates, candidates[i]);
  }

  lemma NothingPicked(plans: seq<Plan>)
    ensures FirstOnes(plans, []) == []
  {
  }

  lemma PicksOneMore(plans: seq<Plan>, candidates: seq<nat>, n: nat)
    requires n < |candidates| && forall j :: 0 <= j < |candidates| ==> candidates[j] < |plans|
    ensures FirstOnes(plans, candidates[..n + 1])
            == FirstOnes(plans, candidates[..n])
               + if FirstOfItsContact(plans, candidates, n) then [candidates[n]] else []
  {
    hide FirstOfItsContact;
    IsTheFirst(plans, candidates, n);
    assert candidates[..n + 1][..n] == candidates[..n];
  }

  /** Picked plans are candidates, and no two belong to one contact. */
  lemma {:induction false} FirstOnesAreDistinct(plans: seq<Plan>, candidates: seq<nat>)
    requires forall i :: 0 <= i < |candidates| ==> candidates[i] < |plans|
    ensures OnePerContact(plans, FirstOnes(plans, candidates))
    ensures forall p :: p in FirstOnes(plans, candidates) ==> p in candidates
  {
    if candidates != [] {
      var n := |candidates| - 1;
      FirstOnesAreDistinct(plans, candidates[..n]);
      assert candidates[..n + 1] == candidates && candidates == candidates[..n] + [candidates[n]];
      PicksOneMore(plans, candidates, n);
      if FirstOfItsContact(plans, candidates, n) {
        OneContactMore(plans, FirstOnes(plans, candidates[..n]), candidates, n);
      }
      hide FirstOfItsContact, OnePerContact, FirstOnes;
    }
  }

  ghost predicate OnePerContact(plans: seq<Plan>, chosen: seq<nat>) {
    && (forall i :: 0 <= i < |chosen| ==> chosen[i] < |plans|)
    && forall i, j :: 0 <= i < j < |chosen| ==> plans[chosen[i]].contact != plans[chosen[j]].contact
  }

  lemma OneContactMore(plans: seq<Plan>, chosen: seq<nat>, candidates: seq<nat>, n: nat)
    requires n < |candidates| && forall j :: 0 <= j < |candidates| ==> candidates[j] < |plans|
    requires FirstOfItsContact(plans, candidates, n) && OnePerContact(plans, chosen)
    requires forall p :: p in chosen ==> p in candidates[..n]
    ensures OnePerContact(plans, chosen + [candidates[n]])
  {
    forall i | 0 <= i < |chosen| ensures plans[chosen[i]].contact != plans[candidates[n]].contact {
      assert chosen[i] in candidates[..n];
    }
  }

  /** Handed on are exactly the attempts of picked plans that are active, awake and due under an active topic, for their
      date, unless such an attempt is already further on. */
  lemma {:induction false} HandsOnExactly(b: Book, chosen: seq<nat>, now: int, k: Key)
    ensures k in HandedOn(b, chosen, now) <==>
              && k.plan in chosen && k.plan < |b.plans|
              && b.plans[k.plan].state == Active && b.plans[k.plan].topic < |b.topics|
              && b.topics[b.plans[k.plan].topic].active
              && b.plans[k.plan].nextDue == Some(k.due) && k.due <= now
              && (b.plans[k.plan].snoozedUntil == None || b.plans[k.plan].snoozedUntil.value <= now)
              && (k in b.attempts ==> b.attempts[k].state == Due)
  {
    if chosen != [] {
      var n := |chosen| - 1;
      HandsOnExactly(b, chosen[..n], now, k);
      assert k.plan in chosen <==> k.plan in chosen[..n] || k.plan == chosen[n];
      ToProcessExactly(b, chosen[n], now, k);
    }
  }

  lemma ToProcessExactly(b: Book, p: nat, now: int, k: Key)
    ensures ToProcess(b, p, now) && k == Key(p, b.plans[p].nextDue.value) <==>
              && k.plan == p < |b.plans|
              && b.plans[p].state == Active && b.plans[p].topic < |b.topics| && b.topics[b.plans[p].topic].active
              && b.plans[p].nextDue == Some(k.due) && k.due <= now
              && (b.plans[p].snoozedUntil == None || b.plans[p].snoozedUntil.value <= now)
              && (k in b.attempts ==> b.attempts[k].state == Due)
  {
  }

  lemma NothingCreated(b: Book, now: int)
    ensures CreateAll(b, [], now) == b && HandedOn(b, [], now) == []
  {
  }

  lemma OneMoreTurn(b: Book, chosen: seq<nat>, m: nat, now: int)
    requires m < |chosen|
    ensures CreateAll(b, chosen[..m + 1], now) == CreateAttempt(CreateAll(b, chosen[..m], now), chosen[m], now)
    ensures HandedOn(b, chosen[..m + 1], now)
            == HandedOn(b, chosen[..m], now)
               + (if ToProcess(b, chosen[m], now) then [Key(chosen[m], b.plans[chosen[m]].nextDue.value)] else [])
  {
    assert chosen[..m + 1][..m] == chosen[..m];
  }

  /** The turns only add due attempts, of the chosen plans. */
  lemma {:induction false} CreateAllKeeps(b: Book, chosen: seq<nat>, now: int)
    ensures var b' := CreateAll(b, chosen, now);
            && b'.plans == b.plans && b'.topics == b.topics
            && (forall k :: k in b.attempts ==> k in b'.attempts && b'.attempts[k] == b.attempts[k])
            && (forall k :: k in b'.attempts && k !in b.attempts ==> k.plan in chosen && b'.attempts[k].state.Due?)
  {
    hide IsDue;
    if chosen != [] {
      CreateAllKeeps(b, chosen[..|chosen| - 1], now);
    }
  }

  lemma {:induction false} HandedAreDue(b: Book, chosen: seq<nat>, now: int, k: Key)
    requires k in HandedOn(b, chosen, now)
    ensures var b' := CreateAll(b, chosen, now);
            k in b'.attempts && b'.attempts[k].state.Due? && k.plan in chosen
  {
    var front, p := chosen[..|chosen| - 1], chosen[|chosen| - 1];
    CreateAllKeeps(b, front, now);
    if k in HandedOn(b, front, now) {
      HandedAreDue(b, front, now, k);
    } else {
      assert k == Key(p, b.plans[p].nextDue.value) && ToProcess(b, p, now);
    }
  }

  /** Every plan of the contact knows the interaction, or a later one it knew already, and keeps state, snooze and last
      send. */
  ghost predicate Informs(b: Book, now: Book, contact: nat, at: int) {
    |now.plans| == |b.plans| && forall p :: 0 <= p < |b.plans| && b.plans[p].contact == contact ==>
      var before, after := b.plans[p], now.plans[p];
      && after.lastInteraction.Some? && after.lastInteraction.value >= at
      && (after.lastInteraction.value == at || after.lastInteraction == before.lastInteraction)
      && (before.lastInteraction.Some? ==> after.lastInteraction.value >= before.lastInteraction.value)
      && after.state == before.state && after.snoozedUntil == before.snoozedUntil && after.lastSent == before.lastSent
      && after.contact == before.contact && after.topic == before.topic
  }

  lemma InteractionRemembers(b: Book, contact: nat, at: int)
    requires WellFormed(b)
    ensures Informs(b, Interaction(b, contact, at), contact, at)
  {
    hide DueAfterInteraction;
  }

  class Desk {
    var topics: seq<Topic>
    var plans: seq<Plan>
    var attempts: map<Key, Attempt>

    function Rows(): Book
      reads this
    {
      Book(topics, plans, attempts)
    }

    constructor ()
      ensures Rows() == Book([], [], map[])
    {
      topics, plans, attempts := [], [], map[];
    }

    /** Two bulk updates: the attempts first, then the messages that had not left. */
    method CancelOpenAttempts(plan: nat, before: Option<int>)
      modifies this`attempts
      ensures attempts == CancelOpen(old(attempts), plan, before)
      ensures forall k :: k in old(attempts) && old(attempts)[k].outbound.Some?
                          && old(attempts)[k].outbound.value.state !in {ReviewReady, Queued} ==>
                k in attempts && attempts[k].outbound == old(attempts)[k].outbound
    {
      var outbounds := set k | k in attempts && Withdraws(k, attempts[k], plan, before) && attempts[k].outbound.Some?;
      attempts := map k | k in attempts ::
        if Withdraws(k, attempts[k], plan, before) then attempts[k].(state := AttemptCancelled) else attempts[k];
      attempts := map k | k in attempts ::
        if k in outbounds && attempts[k].outbound.Some? && attempts[k].outbound.value.state in {ReviewReady, Queued}
        then attempts[k].(outbound := Some(attempts[k].outbound.value.(state := OutCancelled))) else attempts[k];
    }

    method NextDue(plan: Plan, topic: Topic, now: int) returns (due: int)
      ensures due == NextDueForApproval(plan, topic, now)
    {
      var candidates := [];
      if topic.nextDue.Some? { candidates := candidates + [topic.nextDue.value]; }
      if plan.lastInteraction.Some? { candidates := candidates + [plan.lastInteraction.value + topic.cadence * DAY]; }
      if plan.lastSent.Some? { candidates := candidates + [plan.lastSent.value + topic.cadence * DAY]; }
      if plan.snoozedUntil.Some? { candidates := candidates + [plan.snoozedUntil.value]; }
      assert candidates == Listed(topic.nextDue, 0) + Listed(plan.lastInteraction, topic.cadence)
                           + Listed(plan.lastSent, topic.cadence) + Listed(plan.snoozedUntil, 0);
      due := if candidates != [] then MaxOf(candidates) else now + topic.cadence * DAY;
    }

    method ReschedulePlan(t: nat, p: nat, now: int)
      requires t < |topics| && p < |plans|
      modifies this`plans, this`attempts
      ensures Rows() == RescheduleTurn(old(Rows()), t, now, p)
    {
      if Follows(plans[p], t) {
        CancelOpenAttempts(p, None);
        var topic := topics[t];
        if topic.active {
          var due := NextDue(plans[p], topic, now);
          plans := plans[p := plans[p].(nextDue := Some(due))];
        } else {
          plans := plans[p := plans[p].(nextDue := None)];
        }
      }
    }

    method RescheduleTopicApprovals(t: nat, now: int)
      requires t < |topics|
      modifies this`plans, this`attempts
      ensures Rows() == RescheduleTopic(old(Rows()), t, now)
      ensures SparesOthers(old(Rows()), Rows(), p => Follows(p, t))
    {
      ghost var b := Rows();
      hide RescheduleTurn, RescheduleTopic, SparesOthers;
      var p := 0;
      RescheduleStarts(b, t, now);
      while p < |plans|
        invariant p <= |plans| == |b.plans| && topics == b.topics
        invariant RescheduleUpTo(b, t, now, p, Rows())
      {
        RescheduleContinues(b, t, now, p, Rows());
        ReschedulePlan(t, p, now);
        p := p + 1;
      }
      RescheduleEnds(b, t, now, Rows());
      RescheduleSpares(b, t, now);
    }

    method MovePlan(p: nat, contact: nat, at: int)
      requires WellFormed(Rows()) && p < |plans|
      modifies this`plans, this`attempts
      ensures Rows() == InteractionTurn(old(Rows()), contact, at, p)
    {
      if plans[p].contact == contact {
        var plan := plans[p];
        var cadence := topics[plan.topic].cadence;
        var due := DueAfterInteraction(plan, cadence, at);
        CancelOpenAttempts(p, Some(due));
        plans := plans[p := plan.(lastInteraction := Some(Latest(plan.lastInteraction, at)), nextDue := Some(due))];
      }
    }

    /** Every plan of the contact is moved, and no other. */
    method RecordGenuineContactInteraction(contact: nat, at: int)
      requires WellFormed(Rows())
      modifies this`plans, this`attempts
      ensures Rows() == Interaction(old(Rows()), contact, at)
      ensures SparesOthers(old(Rows()), Rows(), (p: Plan) => p.contact == contact)
      ensures Informs(old(Rows()), Rows(), contact, at)
    {
      ghost var b := Rows();
      hide WellFormed, InteractionTurn, Interaction, SparesOthers, Informs;
      var p := 0;
      InteractionStarts(b, contact, at);
      while p < |plans|
        invariant p <= |plans| == |b.plans|
        invariant WellFormed(b) && WellFormed(Rows())
        invariant InteractionUpTo(b, contact, at, p, Rows())
      {
        InteractionContinues(b, contact, at, p, Rows());
        MovePlan(p, contact, at);
        p := p + 1;
      }
      InteractionEnds(b, contact, at, Rows());
      InteractionSpares(b, contact, at);
      InteractionRemembers(b, contact, at);
    }

    /** The first candidate of each contact, in the query's order. */
    method PickPlans(candidates: seq<nat>) returns (chosen: seq<nat>)
      requires forall i :: 0 <= i < |candidates| ==> candidates[i] < |plans|
      ensures forall i :: 0 <= i < |chosen| ==> chosen[i] < |plans|
      ensures forall i, j :: 0 <= i < j < |chosen| ==> plans[chosen[i]].contact != plans[chosen[j]].contact
      ensures forall i :: 0 <= i < |candidates| && FirstOfItsContact(plans, candidates, i) ==> candidates[i] in chosen
      ensures chosen == FirstOnes(plans, candidates)
    {
      hide FirstOfItsContact, FirstOnes;
      NothingPicked(plans);
      assert candidates[..0] == [];
      chosen := [];
      var seen: set<nat> := {};
      ghost var first: map<nat, nat> := map[];
      for n := 0 to |candidates|
        invariant first.Keys == seen
        invariant forall c :: c in first ==> first[c] < n && plans[candidates[first[c]]].contact == c
        invariant forall i :: 0 <= i < n ==> plans[candidates[i]].contact in seen
        invariant chosen == FirstOnes(plans, candidates[..n])
      {
        var p := candidates[n];
        var contact := plans[p].contact;
        PicksOneMore(plans, candidates, n);
        IsTheFirst(plans, candidates, n);
        if contact !in seen {
          seen := seen + {contact};
          chosen := chosen + [p];
          first := first[contact := n];
        } else {
          NotTheFirst(plans, candidates, first[contact], n);
        }
      }
      assert candidates[..|candidates|] == candidates;
      FirstOnesAreDistinct(plans, candidates);
      forall i | 0 <= i < |candidates| && FirstOfItsContact(plans, candidates, i) ensures candidates[i] in chosen {
        FirstsArePicked(plans, candidates, i);
      }
    }

    method CreateTurn(p: nat, now: int) returns (id: Option<Key>)
      modifies this`attempts
      ensures Rows() == CreateAttempt(old(Rows()), p, now)
      ensures id.Some? ==> id.value.plan == p && id.value in attempts && attempts[id.value].state.Due?
      ensures forall k :: k in old(attempts) ==> k in attempts && attempts[k] == old(attempts)[k]
      ensures id == if ToProcess(old(Rows()), p, now) then Some(Key(p, plans[p].nextDue.value)) else None
    {
      if p >= |plans| || !IsDue(Rows(), p, now) { return None; }
      var key := Key(p, plans[p].nextDue.value);
      if key !in attempts { attempts := attempts[key := Attempt(Due, None, None)]; }
      id := if attempts[key].state.Due? then Some(key) else None;
    }

    /** One dispatch takes at most one plan of each contact, the first of the query's order, and hands on the
        attempts still to be processed. */
    method CreateDueScheduledAttempts(candidates: seq<nat>, now: int) returns (chosen: seq<nat>, ids: seq<Key>)
      requires forall i :: 0 <= i < |candidates| ==> candidates[i] < |plans|
      modifies this`attempts
      ensures Rows() == CreateAll(old(Rows()), chosen, now)
      ensures forall i :: 0 <= i < |chosen| ==> chosen[i] < |plans|
      ensures forall i, j :: 0 <= i < j < |chosen| ==> plans[chosen[i]].contact != plans[chosen[j]].contact
      ensures forall i :: 0 <= i < |candidates| && FirstOfItsContact(plans, candidates, i) ==> candidates[i] in chosen
      ensures chosen == FirstOnes(plans, candidates) && ids == HandedOn(old(Rows()), chosen, now)
      ensures forall k :: k in ids ==> k in attempts && attempts[k].state.Due? && k.plan in chosen
      ensures forall k :: k in old(attempts) ==> k in attempts && attempts[k] == old(attempts)[k]
    {
      chosen := PickPlans(candidates);
      ids := [];
      ghost var b := Rows();
      hide IsDue, FirstOfItsContact, FirstOnes, ToProcess, CreateAll, HandedOn;
      NothingCreated(b, now);
      for m := 0 to |chosen|
        invariant Rows() == CreateAll(b, chosen[..m], now) && ids == HandedOn(b, chosen[..m], now)
      {
        CreateAllKeeps(b, chosen[..m], now);
        assert chosen[m] !in chosen[..m];
        ToProcessAsBefore(b, Rows(), chosen[m], now);
        OneMoreTurn(b, chosen, m, now);
        var id := CreateTurn(chosen[m], now);
        if id.Some? { ids := ids + [id.value]; }
      }
      assert chosen[..|chosen|] == chosen;
      CreateAllKeeps(b, chosen, now);
      forall k | k in ids ensures k in attempts && attempts[k].state.Due? && k.plan in chosen {
        HandedAreDue(b, chosen, now, k);
      }
    }

    /** A sent message moves attempt and plan; a failed one opens a human task, whose refusal rolls back; every other
        plan and attempt stays. `called` says that a person was. */
    method CompleteScheduledContactAttempt(k: Key, now: int, taskOpens: bool) returns (called: bool)
      requires WellFormed(Rows())
      modifies this`plans, this`attempts
      ensures Rows() == Complete(old(Rows()), k, now, taskOpens)
      ensures called <==> old(EndedBadly(Rows(), k)) && taskOpens
      ensures forall j :: j in old(attempts) && j != k ==> j in attempts && attempts[j] == old(attempts)[j]
      ensures forall p :: 0 <= p < |old(plans)| && p != k.plan ==> p < |plans| && plans[p] == old(plans)[p]
    {
      called := false;
      if k !in attempts || attempts[k].outbound.None? { return; }
      var outbound := attempts[k].outbound.value;
      if outbound.state.Sent? {
        var sentAt := if outbound.sentAt.Some? then outbound.sentAt.value else now;
        attempts := attempts[k := attempts[k].(state := AttemptSent, recorded := Some(sentAt))];
        var plan := plans[k.plan];
        var due := DueAfterSend(topics[plan.topic], sentAt);
        plans := plans[k.plan := plan.(lastSent := Some(sentAt), nextDue := Some(due), snoozedUntil := None)];
      } else if outbound.state in {SendFailed, Blocked, OutCancelled} && taskOpens {
        called := true;
        attempts := attempts[k := attempts[k].(state := HumanRequired)];
      }
    }
  }
}
