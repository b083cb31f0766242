/**
 What each operation on human tasks does to the rows and the flags, read off the rows themselves: which request is
 accepted, which row it adds, which flags fall, and that a review opened for an inbound message is closed by the manual
 reply to it.
 */
module TaskRequests {
  import opened Common
  import opened HumanTasks

  // ---------- opening ----------

  /** The open tasks that a request repeats; an inbound message counts only when the request names one. */
  function Repeated(s: TaskStore, r: OpenRequest): set<nat> {
    set t: nat | t < |s.tasks| && s.tasks[t].status == Open
                 && s.tasks[t].contact == r.contact && s.tasks[t].conversation == r.conversation
                 && s.tasks[t].kind == r.kind && s.tasks[t].reason == r.reason
                 && (r.inbound == None || s.tasks[t].inbound == r.inbound)
  }

  predicate KnownTo(s: TaskStore, r: OpenRequest) {
    && r.contact in s.contacts
    && (r.conversation.Some? ==>
          r.conversation.value in s.contactOf && s.contactOf[r.conversation.value] == r.contact)
  }

  /** Another open task of the same inbound message gives the same reason. */
  predicate ReasonTaken(s: TaskStore, r: OpenRequest) {
    r.inbound != None
    && exists t :: 0 <= t < |s.tasks| && s.tasks[t].status == Open
                   && s.tasks[t].inbound == r.inbound && s.tasks[t].reason == r.reason
  }

  lemma {:induction false} CountIsRepeated(s: TaskStore, r: OpenRequest)
    ensures CountMatches(s.tasks, r) == |Repeated(s, r)|
    decreases |s.tasks|
  {
    if s.tasks != [] {
      var n := |s.tasks| - 1;
      var before := s.(tasks := s.tasks[..n]);
      CountIsRepeated(before, r);
      assert Repeated(s, r) - {n} == Repeated(before, r);
      if n in Repeated(s, r) {
        assert Repeated(s, r) == Repeated(before, r) + {n};
      } else {
        assert Repeated(s, r) == Repeated(before, r);
      }
    } else {
      assert Repeated(s, r) == {};
    }
  }

  /** A request is accepted if and only if contact and conversation are known and belong together and either exactly one
      open task repeats it, or none does and no other open task of its inbound message gives the same reason. */
  lemma OpensExactly(s: TaskStore, r: OpenRequest)
    ensures OpenTask(s, r).Some? <==>
              && KnownTo(s, r)
              && (|Repeated(s, r)| == 1 || (|Repeated(s, r)| == 0 && !ReasonTaken(s, r)))
  {
    CountIsRepeated(s, r);
  }

  /** An accepted request that repeats nothing adds one row, with everything the request says; one that repeats a task
      adds none. The flag of its conversation, or else of its contact, goes up, and nothing else changes. */
  lemma OpenedRows(s: TaskStore, r: OpenRequest)
    requires OpenTask(s, r).Some?
    ensures var s' := OpenTask(s, r).value;
            && s'.tasks == (if Repeated(s, r) == {}
                            then s.tasks + [HumanTask(r.contact, r.conversation, r.inbound, r.kind, r.reason, Open)]
                            else s.tasks)
            && s'.contacts == s.contacts && s'.contactOf == s.contactOf
            && (forall c :: c in s'.suspendedConversations <==>
                              c in s.suspendedConversations || r.conversation == Some(c))
            && (forall p :: p in s'.suspendedContacts <==>
                              p in s.suspendedContacts || (r.conversation == None && p == r.contact))
  {
    CountIsRepeated(s, r);
    assert Repeated(s, r) == {} <==> |Repeated(s, r)| == 0;
  }

  /** Afterwards an open task says what the request asked for. */
  predicate Stands(s: TaskStore, r: OpenRequest, t: nat) {
    && t < |s.tasks| && s.tasks[t].status == Open
    && s.tasks[t].contact == r.contact && s.tasks[t].conversation == r.conversation
    && s.tasks[t].kind == r.kind && s.tasks[t].reason == r.reason
    && (r.inbound != None ==> s.tasks[t].inbound == r.inbound)
  }

  lemma AcceptedStands(s: TaskStore, r: OpenRequest) returns (t: nat)
    requires OpenTask(s, r).Some?
    ensures Stands(OpenTask(s, r).value, r, t)
  {
    OpenedRows(s, r);
    if Repeated(s, r) == {} {
      t := |s.tasks|;
    } else {
      t :| t in Repeated(s, r);
    }
  }

  // ---------- closing ----------

  /** Another open task than `t` keeps the flag of the conversation up, or that of the contact. */
  predicate KeptByAnother(s: TaskStore, t: nat, conversation: Option<nat>, contact: nat) {
    exists k :: 0 <= k < |s.tasks| && k != t && s.tasks[k].status == Open && s.tasks[k].conversation == conversation
                && (conversation == None ==> s.tasks[k].contact == contact)
  }

  /** Closing is refused for a missing task, and for an open one without a note; a task no longer open stays. */
  lemma ClosesExactly(s: TaskStore, t: nat, dismiss: bool, note: string)
    ensures CloseTask(s, t, dismiss, note).None? <==> t >= |s.tasks| || (s.tasks[t].status == Open && note == "")
    ensures t < |s.tasks| && s.tasks[t].status != Open ==> CloseTask(s, t, dismiss, note) == Some(s)
  {
  }

  /** A closed task changes its status alone; its flag falls unless another open task keeps it up. */
  lemma ClosedRows(s: TaskStore, t: nat, dismiss: bool, note: string)
    requires t < |s.tasks| && s.tasks[t].status == Open && note != ""
    ensures var s' := CloseTask(s, t, dismiss, note).value;
            var task := s.tasks[t];
            && s'.tasks == s.tasks[t := HumanTask(task.contact, task.conversation, task.inbound, task.kind, task.reason,
                                                  if dismiss then Dismissed else Resolved)]
            && s'.contacts == s.contacts && s'.contactOf == s.contactOf
            && (forall c :: c in s'.suspendedConversations <==>
                  c in s.suspendedConversations
                  && (task.conversation == Some(c) ==> KeptByAnother(s, t, Some(c), task.contact)))
            && (forall p :: p in s'.suspendedContacts <==>
                  p in s.suspendedContacts
                  && (task.conversation == None && p == task.contact ==> KeptByAnother(s, t, None, p)))
  {
    var status := if dismiss then Dismissed else Resolved;
    var closed := s.(tasks := s.tasks[t := s.tasks[t].(status := status)]);
    StillOpen(s, closed, t);
  }

  lemma StillOpen(s: TaskStore, closed: TaskStore, t: nat)
    requires t < |s.tasks| == |closed.tasks| && closed.tasks[t].status != Open
    requires closed == s.(tasks := s.tasks[t := closed.tasks[t]])
    ensures forall c, p :: KeptByAnother(s, t, c, p) <==>
              exists k :: 0 <= k < |closed.tasks| && closed.tasks[k].status == Open && closed.tasks[k].conversation == c
                          && (c == None ==> closed.tasks[k].contact == p)
  {
    forall c, p ensures KeptByAnother(s, t, c, p) <==>
              exists k :: 0 <= k < |closed.tasks| && closed.tasks[k].status == Open && closed.tasks[k].conversation == c
                          && (c == None ==> closed.tasks[k].contact == p)
    {
      if KeptByAnother(s, t, c, p) {
        var k :| 0 <= k < |s.tasks| && k != t && s.tasks[k].status == Open && s.tasks[k].conversation == c
                 && (c == None ==> s.tasks[k].contact == p);
        assert closed.tasks[k] == s.tasks[k];
      }
    }
  }

  // ---------- a manual reply ----------

  /** A reply by a person resolves exactly the open reply reviews of the inbound message. */
  lemma ManualReplyRows(s: TaskStore, inbound: nat)
    requires Consistent(s)
    ensures var s' := ResolveForManualReply(s, inbound);
            && Consistent(s') && |s'.tasks| == |s.tasks| && s'.contacts == s.contacts && s'.contactOf == s.contactOf
            && forall t :: 0 <= t < |s.tasks| ==>
                 s'.tasks[t] ==
                 if s.tasks[t].status == Open && s.tasks[t].inbound == Some(inbound)
                    && s.tasks[t].kind == "REPLY_REVIEW"
                 then s.tasks[t].(status := Resolved) else s.tasks[t]
  {
    ResolveUpToEffect(s, inbound, |s.tasks|);
  }

  /** The number that the bulk resolve returns. */
  lemma {:induction false} CountsTheReviews(tasks: seq<HumanTask>, inbound: nat)
    ensures CountAwaiting(tasks, inbound) == |Reviews(tasks, inbound)|
  {
    if tasks == [] {
      assert Reviews(tasks, inbound) == {};
    } else {
      var n := |tasks| - 1;
      CountsTheReviews(tasks[..n], inbound);
      if n in Reviews(tasks, inbound) {
        assert Reviews(tasks, inbound) == Reviews(tasks[..n], inbound) + {n};
      } else {
        assert Reviews(tasks, inbound) == Reviews(tasks[..n], inbound);
      }
    }
  }

  function Reviews(tasks: seq<HumanTask>, inbound: nat): set<nat> {
    set t: nat | t < |tasks| && tasks[t].status == Open && tasks[t].inbound == Some(inbound)
                 && tasks[t].kind == "REPLY_REVIEW"
  }

  /** A review opened for an inbound message is closed by the reply to it, and its conversation resumes if and only if
      no other open task of it is left. */
  lemma ReviewEndsWithTheReply(s: TaskStore, r: OpenRequest, inbound: nat, conversation: nat)
    requires Consistent(s) && OpenTask(s, r).Some?
    requires r.kind == "REPLY_REVIEW" && r.inbound == Some(inbound) && r.conversation == Some(conversation)
    ensures var after := OpenTask(s, r).value;
            var s' := ResolveForManualReply(after, inbound);
            && conversation in after.suspendedConversations
            && (exists t: nat :: Stands(after, r, t) && t < |s'.tasks| && s'.tasks[t].status == Resolved)
            && (forall t :: 0 <= t < |s'.tasks| && s'.tasks[t].status == Open ==>
                  !(s'.tasks[t].inbound == Some(inbound) && s'.tasks[t].kind == "REPLY_REVIEW"))
            && (conversation in s'.suspendedConversations <==>
                  exists t :: 0 <= t < |s.tasks| && s.tasks[t].status == Open
                              && s.tasks[t].conversation == Some(conversation)
                              && !(s.tasks[t].inbound == Some(inbound) && s.tasks[t].kind == "REPLY_REVIEW"))
  {
    var after := OpenTask(s, r).value;
    OpenKeepsConsistent(s, r);
    OpenedRows(s, r);
    var w := AcceptedStands(s, r);
    ManualReplyRows(after, inbound);
    var s' := ResolveForManualReply(after, inbound);
    assert s'.tasks[w].status == Resolved;
    hide OpenTask, ResolveForManualReply, Repeated;
    if conversation in s'.suspendedConversations {
      assert OpenOn(s', conversation);
      var t :| 0 <= t < |s'.tasks| && s'.tasks[t].status.Open? && s'.tasks[t].conversation == Some(conversation);
      assert t < |s.tasks| && s.tasks[t] == after.tasks[t];
    } else {
      assert !OpenOn(s', conversation);
      forall t | 0 <= t < |s.tasks| && s.tasks[t].status == Open && s.tasks[t].conversation == Some(conversation)
        ensures s.tasks[t].inbound == Some(inbound) && s.tasks[t].kind == "REPLY_REVIEW"
      {
        assert after.tasks[t] == s.tasks[t];
        assert !s'.tasks[t].status.Open?;
      }
    }
  }

  // ---------- the gates ----------

  /** Over consistent tables the gate of a reply asks for exactly this: the contact has no open task, and the
      conversation is the contact's. */
  lemma ReplyGateExactly(s: TaskStore, contact: nat, conversation: nat)
    requires Consistent(s)
    ensures ReplyGateClear(s, contact, conversation) <==>
              && (forall t :: 0 <= t < |s.tasks| && s.tasks[t].status == Open ==> s.tasks[t].contact != contact)
              && conversation in s.contactOf && s.contactOf[conversation] == contact
  {
  }

  lemma ScheduledGateExactly(s: TaskStore, contact: nat)
    requires Consistent(s)
    ensures ScheduledGateClear(s, contact) <==>
              forall t :: 0 <= t < |s.tasks| && s.tasks[t].status == Open ==> s.tasks[t].contact != contact
  {
  }

  /** Whatever the tables, a flag, an open task of either, or a conversation of another contact closes the gates. */
  lemma EachObjectionCloses(s: TaskStore, contact: nat, conversation: nat)
    ensures conversation in s.suspendedConversations ==> !ReplyGateClear(s, contact, conversation)
    ensures contact in s.suspendedContacts ==>
              !ReplyGateClear(s, contact, conversation) && !ScheduledGateClear(s, contact)
    ensures forall t :: 0 <= t < |s.tasks| && s.tasks[t].status == Open && s.tasks[t].conversation == Some(conversation)
              ==> !ReplyGateClear(s, contact, conversation)
    ensures forall t :: 0 <= t < |s.tasks| && s.tasks[t].status == Open && s.tasks[t].contact == contact ==>
              !ReplyGateClear(s, contact, conversation) && !ScheduledGateClear(s, contact)
  {
  }
}
