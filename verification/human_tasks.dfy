/**
 Human tasks and the automation pause they cause (`automation/services.py`).

 Opening a task pauses its conversation, or its contact when the task has no conversation; closing the
 last open task lifts the pause. `Mirror` says the pause flags never drift from the open tasks.
 */
module HumanTasks {
  import opened Common

  datatype Status = Open | Resolved | Dismissed

  datatype HumanTask = HumanTask(
    contact: nat,
    conversation: Option<nat>,
    inbound: Option<nat>,
    kind: string,
    reason: string,
    status: Status)

  /** Human tasks in creation order, and the pause flags of contacts and conversations. */
  datatype TaskStore = TaskStore(
    tasks: seq<HumanTask>,
    contacts: set<nat>,
    contactOf: map<nat, nat>,
    suspendedContacts: set<nat>,
    suspendedConversations: set<nat>)

  datatype OpenRequest = OpenRequest(
    contact: nat,
    conversation: Option<nat>,
    inbound: Option<nat>,
    kind: string,
    reason: string)

  const REPLY_REVIEW := "REPLY_REVIEW"

  // ---------- invariants ----------

  ghost predicate OpenOn(s: TaskStore, conversation: nat) {
    exists t :: 0 <= t < |s.tasks| && s.tasks[t].status.Open? && s.tasks[t].conversation == Some(conversation)
  }

  ghost predicate OpenWithoutConversation(s: TaskStore, contact: nat) {
    exists t :: 0 <= t < |s.tasks| && s.tasks[t].status.Open?
                && s.tasks[t].conversation.None? && s.tasks[t].contact == contact
  }

  ghost predicate OpenFor(s: TaskStore, contact: nat) {
    exists t :: 0 <= t < |s.tasks| && s.tasks[t].status.Open? && s.tasks[t].contact == contact
  }

  /** Every task points at its own contact's conversation. */
  ghost predicate WellFormed(s: TaskStore) {
    forall t :: 0 <= t < |s.tasks| && s.tasks[t].conversation.Some? ==>
                  s.tasks[t].conversation.value in s.contactOf
                  && s.contactOf[s.tasks[t].conversation.value] == s.tasks[t].contact
  }

  /** A pause flag is up exactly when an open task asks for it. */
  ghost predicate Mirror(s: TaskStore) {
    && (forall c :: c in s.suspendedConversations <==> OpenOn(s, c))
    && (forall p :: p in s.suspendedContacts <==> OpenWithoutConversation(s, p))
  }

  ghost predicate Consistent(s: TaskStore) {
    WellFormed(s) && Mirror(s)
  }

  // ---------- opening ----------

  /** The lookup of `get_or_create`: an inbound restricts the match only when it is given. */
  predicate Matches(t: HumanTask, r: OpenRequest) {
    && t.status.Open? && t.contact == r.contact && t.conversation == r.conversation
    && t.kind == r.kind && t.reason == r.reason
    && (r.inbound.Some? ==> t.inbound == r.inbound)
  }

  function CountMatches(tasks: seq<HumanTask>, r: OpenRequest): nat {
    if tasks == [] then 0
    else CountMatches(tasks[..|tasks| - 1], r) + (if Matches(tasks[|tasks| - 1], r) then 1 else 0)
  }

  /** The partial unique index over open tasks of one inbound. */
  predicate InboundReasonTaken(s: TaskStore, r: OpenRequest) {
    r.inbound.Some? &&
    exists t :: 0 <= t < |s.tasks| && s.tasks[t].status.Open?
                && s.tasks[t].inbound == r.inbound && s.tasks[t].reason == r.reason
  }

  function NewTask(r: OpenRequest): HumanTask {
    HumanTask(r.contact, r.conversation, r.inbound, r.kind, r.reason, Open)
  }

  function Pause(s: TaskStore, contact: nat, conversation: Option<nat>): TaskStore {
    match conversation
    case Some(c) => s.(suspendedConversations := s.suspendedConversations + {c})
    case None => s.(suspendedContacts := s.suspendedContacts + {contact})
  }

  /** `None` is a transaction that raised: unknown contact or conversation, an ambiguous lookup, or a unique
      index conflict that the fallback lookup cannot resolve. */
  function OpenTask(s: TaskStore, r: OpenRequest): Option<TaskStore> {
    if r.contact !in s.contacts then None
    else if r.conversation.Some? && (r.conversation.value !in s.contactOf
                                     || s.contactOf[r.conversation.value] != r.contact) then None
    else
      var found := CountMatches(s.tasks, r);
      if found > 1 then None
      else if found == 1 then Some(Pause(s, r.contact, r.conversation))
      else if InboundReasonTaken(s, r) then None
      else Some(Pause(s.(tasks := s.tasks + [NewTask(r)]), r.contact, r.conversation))
  }

  lemma {:induction false} CountedMatchExists(tasks: seq<HumanTask>, r: OpenRequest)
    requires CountMatches(tasks, r) > 0
    ensures exists t :: 0 <= t < |tasks| && Matches(tasks[t], r)
  {
    var last := |tasks| - 1;
    if !Matches(tasks[last], r) {
      CountedMatchExists(tasks[..last], r);
      var t :| 0 <= t < last && Matches(tasks[..last][t], r);
      assert Matches(tasks[t], r);
    }
  }

  /** Opening keeps the flags exact, leaves an open task of the request, and closes nothing. */
  lemma OpenKeepsConsistent(s: TaskStore, r: OpenRequest)
    requires Consistent(s) && OpenTask(s, r).Some?
    ensures var s' := OpenTask(s, r).value;
            && Consistent(s')
            && OpenFor(s', r.contact)
            && s.tasks <= s'.tasks
            && s'.contacts == s.contacts && s'.contactOf == s.contactOf
  {
    var s' := OpenTask(s, r).value;
    var w: nat;
    if CountMatches(s.tasks, r) == 1 {
      CountedMatchExists(s.tasks, r);
      var t :| 0 <= t < |s.tasks| && Matches(s.tasks[t], r);
      w := t;
    } else {
      w := |s.tasks|;
    }
    assert s'.tasks[w].status.Open? && s'.tasks[w].contact == r.contact
           && s'.tasks[w].conversation == r.conversation;
    forall c ensures c in s'.suspendedConversations <==> OpenOn(s', c) {
      if OpenOn(s, c) {
        var t :| 0 <= t < |s.tasks| && s.tasks[t].status.Open? && s.tasks[t].conversation == Some(c);
        assert s'.tasks[t] == s.tasks[t];
      }
    }
    forall p ensures p in s'.suspendedContacts <==> OpenWithoutConversation(s', p) {
      if OpenWithoutConversation(s, p) {
        var t :| 0 <= t < |s.tasks| && s.tasks[t].status.Open?
                 && s.tasks[t].conversation.None? && s.tasks[t].contact == p;
        assert s'.tasks[t] == s.tasks[t];
      }
    }
  }

  // ---------- closing ----------

  /** The pause flags after task `t` has just left the open state. */
  function Resume(s: TaskStore, t: nat): TaskStore
    requires t < |s.tasks|
  {
    var task := s.tasks[t];
    match task.conversation
    case Some(c) =>
      if exists k :: 0 <= k < |s.tasks| && s.tasks[k].status.Open? && s.tasks[k].conversation == Some(c)
      then s
      else s.(suspendedConversations := s.suspendedConversations - {c})
    case None =>
      if exists k :: 0 <= k < |s.tasks| && s.tasks[k].status.Open? && s.tasks[k].conversation.None?
                     && s.tasks[k].contact == task.contact
      then s
      else s.(suspendedContacts := s.suspendedContacts - {task.contact})
  }

  function CloseOpenTask(s: TaskStore, t: nat, status: Status): TaskStore
    requires t < |s.tasks|
  {
    Resume(s.(tasks := s.tasks[t := s.tasks[t].(status := status)]), t)
  }

  /** Closing is refused without a note, and does nothing to a task that is no longer open. */
  function CloseTask(s: TaskStore, t: nat, dismiss: bool, note: string): Option<TaskStore> {
    if t >= |s.tasks| then None
    else if !s.tasks[t].status.Open? then Some(s)
    else if note == "" then None
    else Some(CloseOpenTask(s, t, if dismiss then Dismissed else Resolved))
  }

  lemma CloseOpenKeepsConsistent(s: TaskStore, t: nat, status: Status)
    requires Consistent(s) && t < |s.tasks| && s.tasks[t].status.Open? && !status.Open?
    ensures Consistent(CloseOpenTask(s, t, status))
  {
    var s' := CloseOpenTask(s, t, status);
    forall c ensures c in s'.suspendedConversations <==> OpenOn(s', c) {
      if c in s.suspendedConversations && s.tasks[t].conversation != Some(c) {
        var k :| 0 <= k < |s.tasks| && s.tasks[k].status.Open? && s.tasks[k].conversation == Some(c);
        assert s'.tasks[k] == s.tasks[k];
      }
      if OpenOn(s', c) {
        var k :| 0 <= k < |s'.tasks| && s'.tasks[k].status.Open? && s'.tasks[k].conversation == Some(c);
        assert s.tasks[k] == s'.tasks[k];
      }
    }
    forall p ensures p in s'.suspendedContacts <==> OpenWithoutConversation(s', p) {
      if p in s.suspendedContacts && !(s.tasks[t].conversation.None? && s.tasks[t].contact == p) {
        var k :| 0 <= k < |s.tasks| && s.tasks[k].status.Open?
                 && s.tasks[k].conversation.None? && s.tasks[k].contact == p;
        assert s'.tasks[k] == s.tasks[k];
      }
      if OpenWithoutConversation(s', p) {
        var k :| 0 <= k < |s'.tasks| && s'.tasks[k].status.Open?
                 && s'.tasks[k].conversation.None? && s'.tasks[k].contact == p;
        assert s.tasks[k] == s'.tasks[k];
      }
    }
  }

  // ---------- the bulk resolve of a manual reply ----------

  predicate AwaitsManualReply(t: HumanTask, inbound: nat) {
    t.status.Open? && t.inbound == Some(inbound) && t.kind == REPLY_REVIEW
  }

  /** Resolves, in table order, the tasks below `n` that wait for a reply to `inbound`. */
  function ResolveUpTo(s: TaskStore, inbound: nat, n: nat): (r: TaskStore)
    requires n <= |s.tasks|
    ensures |r.tasks| == |s.tasks|
    decreases n
  {
    if n == 0 then s
    else
      var before := ResolveUpTo(s, inbound, n - 1);
      if AwaitsManualReply(before.tasks[n - 1], inbound) then CloseOpenTask(before, n - 1, Resolved) else before
  }

  function ResolveForManualReply(s: TaskStore, inbound: nat): TaskStore {
    ResolveUpTo(s, inbound, |s.tasks|)
  }

  function CountAwaiting(tasks: seq<HumanTask>, inbound: nat): nat {
    if tasks == [] then 0
    else CountAwaiting(tasks[..|tasks| - 1], inbound)
         + (if AwaitsManualReply(tasks[|tasks| - 1], inbound) then 1 else 0)
  }

  /** The bulk resolve closes exactly the reply reviews of the inbound, and keeps the flags exact. */
  lemma {:induction false} ResolveUpToEffect(s: TaskStore, inbound: nat, n: nat)
    requires Consistent(s) && n <= |s.tasks|
    ensures var r := ResolveUpTo(s, inbound, n);
            && Consistent(r)
            && r.contacts == s.contacts && r.contactOf == s.contactOf
            && forall t :: 0 <= t < |s.tasks| ==>
                 r.tasks[t] == if t < n && AwaitsManualReply(s.tasks[t], inbound)
                               then s.tasks[t].(status := Resolved) else s.tasks[t]
    decreases n
  {
    if n > 0 {
      ResolveUpToEffect(s, inbound, n - 1);
      var before := ResolveUpTo(s, inbound, n - 1);
      if AwaitsManualReply(before.tasks[n - 1], inbound) {
        CloseOpenKeepsConsistent(before, n - 1, Resolved);
      }
    }
  }

  // ---------- whole histories ----------

  datatype TaskOp =
    | OpenIt(request: OpenRequest)
    | CloseIt(task: nat, dismiss: bool, note: string)
    | ManualReplyTo(inbound: nat)

  /** One transaction; a refused one leaves the store as it was. */
  function ApplyTask(s: TaskStore, op: TaskOp): TaskStore {
    match op
    case OpenIt(r) => (match OpenTask(s, r) case Some(s') => s' case None => s)
    case CloseIt(t, dismiss, note) => (match CloseTask(s, t, dismiss, note) case Some(s') => s' case None => s)
    case ManualReplyTo(inbound) => ResolveForManualReply(s, inbound)
  }

  function ApplyTasks(s: TaskStore, ops: seq<TaskOp>): TaskStore {
    if ops == [] then s else ApplyTask(ApplyTasks(s, ops[..|ops| - 1]), ops[|ops| - 1])
  }

  lemma ApplyTaskKeepsConsistent(s: TaskStore, op: TaskOp)
    requires Consistent(s)
    ensures Consistent(ApplyTask(s, op))
  {
    match op
    case OpenIt(r) =>
      if OpenTask(s, r).Some? { OpenKeepsConsistent(s, r); }
    case CloseIt(t, dismiss, note) =>
      if t < |s.tasks| && s.tasks[t].status.Open? && note != "" {
        CloseOpenKeepsConsistent(s, t, if dismiss then Dismissed else Resolved);
      }
    case ManualReplyTo(inbound) =>
      ResolveUpToEffect(s, inbound, |s.tasks|);
  }

  /** Over every sequence of openings, closings and bulk resolves the pause flags mirror the open tasks. */
  lemma {:induction false} SuspensionMirrorsOpenTasks(s: TaskStore, ops: seq<TaskOp>)
    requires Consistent(s)
    ensures Consistent(ApplyTasks(s, ops))
  {
    if ops != [] {
      SuspensionMirrorsOpenTasks(s, ops[..|ops| - 1]);
      ApplyTaskKeepsConsistent(ApplyTasks(s, ops[..|ops| - 1]), ops[|ops| - 1]);
    }
  }

  // ---------- the gates that read the store ----------

  /** `_conversation_error`: pause flags of the pair, then open tasks of the conversation or the contact, then
      whether the conversation is still the contact's. */
  predicate ReplyGateClear(s: TaskStore, contact: nat, conversation: nat) {
    && conversation !in s.suspendedConversations && contact !in s.suspendedContacts
    && (forall t :: 0 <= t < |s.tasks| && s.tasks[t].status.Open? ==>
          s.tasks[t].conversation != Some(conversation) && s.tasks[t].contact != contact)
    && conversation in s.contactOf && s.contactOf[conversation] == contact
  }

  /** What `_scheduled_message_error` asks of human tasks. */
  predicate ScheduledGateClear(s: TaskStore, contact: nat) {
    && contact !in s.suspendedContacts
    && !exists t :: 0 <= t < |s.tasks| && s.tasks[t].status.Open? && s.tasks[t].contact == contact
  }

  lemma {:induction false} ConversationsKeepTheirContact(s: TaskStore, ops: seq<TaskOp>)
    requires Consistent(s)
    ensures ApplyTasks(s, ops).contactOf == s.contactOf
  {
    if ops != [] {
      var before := ApplyTasks(s, ops[..|ops| - 1]);
      SuspensionMirrorsOpenTasks(s, ops[..|ops| - 1]);
      ConversationsKeepTheirContact(s, ops[..|ops| - 1]);
      if ops[|ops| - 1].ManualReplyTo? { ResolveUpToEffect(before, ops[|ops| - 1].inbound, |before.tasks|); }
    }
  }

  /** After any history both gates ask one question, has the contact an open task in any conversation, beside
      whether the conversation is still the contact's. */
  lemma GatesAskForOpenTasks(s: TaskStore, ops: seq<TaskOp>, contact: nat, conversation: nat)
    requires Consistent(s)
    ensures var now := ApplyTasks(s, ops);
            && (ReplyGateClear(now, contact, conversation) <==>
                  !OpenFor(now, contact) && conversation in s.contactOf && s.contactOf[conversation] == contact)
            && (ScheduledGateClear(now, contact) <==> !OpenFor(now, contact))
  {
    SuspensionMirrorsOpenTasks(s, ops);
    ConversationsKeepTheirContact(s, ops);
  }

  // ---------- the service in its own, imperative form ----------

  lemma {:induction false} CountsNoneExactly(tasks: seq<HumanTask>, r: OpenRequest)
    ensures CountMatches(tasks, r) == 0 <==> forall t :: 0 <= t < |tasks| ==> !Matches(tasks[t], r)
  {
    hide Matches;
    if tasks != [] {
      var n := |tasks| - 1;
      CountsNoneExactly(tasks[..n], r);
      assert forall t :: 0 <= t < n ==> tasks[..n][t] == tasks[t];
    }
  }

  /** The service over its tables, updated row by row. */
  class TaskDesk {
    var tasks: seq<HumanTask>
    const contacts: set<nat>
    const contactOf: map<nat, nat>
    var suspendedContacts: set<nat>
    var suspendedConversations: set<nat>

    function Store(): TaskStore
      reads this
    {
      TaskStore(tasks, contacts, contactOf, suspendedContacts, suspendedConversations)
    }

    constructor (contacts: set<nat>, contactOf: map<nat, nat>)
      ensures Store() == TaskStore([], contacts, contactOf, {}, {})
      ensures Consistent(Store())
    {
      this.contacts, this.contactOf := contacts, contactOf;
      tasks, suspendedContacts, suspendedConversations := [], {}, {};
    }

    method OpenHumanTask(r: OpenRequest) returns (ok: bool)
      modifies this
      ensures ok == OpenTask(old(Store()), r).Some?
      ensures Store() == if ok then OpenTask(old(Store()), r).value else old(Store())
      ensures ok && old(Consistent(Store())) ==> Consistent(Store()) && OpenFor(Store(), r.contact)
      ensures ok && (forall t :: 0 <= t < |old(tasks)| ==> !Matches(old(tasks)[t], r)) ==>
                tasks == old(tasks) + [HumanTask(r.contact, r.conversation, r.inbound, r.kind, r.reason, Open)]
      ensures ok && (exists t :: 0 <= t < |old(tasks)| && Matches(old(tasks)[t], r)) ==> tasks == old(tasks)
    {
      if old(Consistent(Store())) && OpenTask(Store(), r).Some? {
        OpenKeepsConsistent(Store(), r);
      }
      if r.contact !in contacts { return false; }
      if r.conversation.Some? && (r.conversation.value !in contactOf || contactOf[r.conversation.value] != r.contact) {
        return false;
      }
      var found := 0;
      for t := 0 to |tasks|
        invariant found == CountMatches(tasks[..t], r)
      {
        assert tasks[..t + 1][..t] == tasks[..t];
        if Matches(tasks[t], r) { found := found + 1; }
      }
      assert tasks[..|tasks|] == tasks;
      CountsNoneExactly(tasks, r);
      if found > 1 { return false; }
      if found == 0 {
        if InboundReasonTaken(Store(), r) { return false; }
        tasks := tasks + [NewTask(r)];
      }
      if r.conversation.Some? {
        suspendedConversations := suspendedConversations + {r.conversation.value};
      } else {
        suspendedContacts := suspendedContacts + {r.contact};
      }
      ok := true;
    }

    method ResumeAfterClose(t: nat)
      requires t < |tasks|
      modifies this
      ensures Store() == Resume(old(Store()), t)
    {
      var task := tasks[t];
      var stillOpen := false;
      for k := 0 to |tasks|
        invariant stillOpen <==> exists j :: 0 <= j < k && tasks[j].status.Open? &&
                                   (if task.conversation.Some? then tasks[j].conversation == task.conversation
                                    else tasks[j].conversation.None? && tasks[j].contact == task.contact)
      {
        if tasks[k].status.Open? &&
           (if task.conversation.Some? then tasks[k].conversation == task.conversation
            else tasks[k].conversation.None? && tasks[k].contact == task.contact)
        {
          stillOpen := true;
        }
      }
      if !stillOpen {
        if task.conversation.Some? {
          suspendedConversations := suspendedConversations - {task.conversation.value};
        } else {
          suspendedContacts := suspendedContacts - {task.contact};
        }
      }
    }

    method CloseHumanTask(t: nat, dismiss: bool, note: string) returns (ok: bool)
      modifies this
      ensures ok == CloseTask(old(Store()), t, dismiss, note).Some?
      ensures Store() == if ok then CloseTask(old(Store()), t, dismiss, note).value else old(Store())
    {
      if t >= |tasks| { return false; }
      if !tasks[t].status.Open? { return true; }
      if note == "" { return false; }
      tasks := tasks[t := tasks[t].(status := if dismiss then Dismissed else Resolved)];
      ResumeAfterClose(t);
      ok := true;
    }

    /** The result is how many reviews were waiting for the inbound. */
    method ResolveReplyReviewTasks(inbound: nat) returns (resolved: nat)
      modifies this
      ensures Store() == ResolveForManualReply(old(Store()), inbound)
      ensures resolved == CountAwaiting(old(tasks), inbound)
    {
      resolved := 0;
      ghost var start := Store();
      for t := 0 to |tasks|
        invariant |tasks| == |start.tasks|
        invariant Store() == ResolveUpTo(start, inbound, t)
        invariant forall k :: t <= k < |tasks| ==> tasks[k] == start.tasks[k]
        invariant resolved == CountAwaiting(start.tasks[..t], inbound)
      {
        assert start.tasks[..t + 1][..t] == start.tasks[..t];
        if AwaitsManualReply(tasks[t], inbound) {
          tasks := tasks[t := tasks[t].(status := Resolved)];
          ResumeAfterClose(t);
          resolved := resolved + 1;
        }
      }
      assert start.tasks[..|start.tasks|] == start.tasks;
    }
  }
}
