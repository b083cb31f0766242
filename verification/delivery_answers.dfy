/**
 Words for the answers of the delivery transactions: the first objection of an ordered list, what is left after a
 decision is rejected, and how many messages the two limits count, all read off the tables.
 */
module DeliveryAnswers {
  import opened Common
  import opened Delivery
  import T = HumanTasks
  import C = Capacity
  import A = Admission

  /** The first objection that applies. */
  function First(objections: seq<(bool, string)>): Option<string> {
    if objections == [] then None
    else if objections[0].0 then Some(objections[0].1)
    else First(objections[1..])
  }

  /** It applies, and nothing before it does. */
  lemma {:induction false} FirstIsFirst(objections: seq<(bool, string)>)
    ensures First(objections) == None <==> forall n :: 0 <= n < |objections| ==> !objections[n].0
    ensures First(objections) != None ==>
              exists n :: 0 <= n < |objections| && objections[n] == (true, First(objections).value)
                          && forall m :: 0 <= m < n ==> !objections[m].0
  {
    if objections != [] && !objections[0].0 {
      FirstIsFirst(objections[1..]);
      assert forall n :: 0 < n < |objections| ==> objections[n] == objections[1..][n - 1];
      if First(objections) != None {
        var n :| 0 <= n < |objections[1..]| && objections[1..][n] == (true, First(objections[1..]).value)
                 && forall m :: 0 <= m < n ==> !objections[1..][m].0;
        assert objections[n + 1] == (true, First(objections).value);
        assert forall m :: 0 <= m < n + 1 ==> !objections[m].0;
      }
    }
  }

  lemma FirstCons(a: (bool, string), rest: seq<(bool, string)>)
    ensures First([a] + rest) == if a.0 then Some(a.1) else First(rest)
  {
    assert ([a] + rest)[1..] == rest;
  }

  lemma ThreeObjections(a: (bool, string), b: (bool, string), c: (bool, string))
    ensures First([a, b, c])
            == if a.0 then Some(a.1) else if b.0 then Some(b.1) else if c.0 then Some(c.1) else None
  {
    FirstCons(a, [b, c]);
    assert [a] + [b, c] == [a, b, c];
    FirstCons(b, [c]);
    assert [b] + [c] == [b, c];
    FirstCons(c, []);
    assert [c] + [] == [c];
  }

  lemma FourObjections(a: (bool, string), b: (bool, string), c: (bool, string), d: (bool, string))
    ensures First([a, b, c, d])
            == if a.0 then Some(a.1) else if b.0 then Some(b.1) else if c.0 then Some(c.1)
               else if d.0 then Some(d.1) else None
  {
    FirstCons(a, [b, c, d]);
    assert [a] + [b, c, d] == [a, b, c, d];
    ThreeObjections(b, c, d);
  }

  lemma FiveObjections(a: (bool, string), b: (bool, string), c: (bool, string), d: (bool, string), e: (bool, string))
    ensures First([a, b, c, d, e])
            == if a.0 then Some(a.1) else if b.0 then Some(b.1) else if c.0 then Some(c.1)
               else if d.0 then Some(d.1) else if e.0 then Some(e.1) else None
  {
    FirstCons(a, [b, c, d, e]);
    assert [a] + [b, c, d, e] == [a, b, c, d, e];
    FirstCons(b, [c, d, e]);
    assert [b] + [c, d, e] == [b, c, d, e];
    ThreeObjections(c, d, e);
  }

  /** The tables after a rejection: the decision is out of the automation's hands and a review of its inbound message
      is open; `None` when the review cannot be opened. */
  function AfterRejection(db: Db, inbound: nat, reason: string, state: DecisionState, messages: map<Key, Message>,
                          reservations: seq<C.Reservation>): Option<Db>
    requires inbound in db.decisions
  {
    var d := db.decisions[inbound];
    var review := T.OpenRequest(d.contact, Some(d.conversation), Some(inbound), "REPLY_REVIEW", reason);
    match T.OpenTask(db.tasks, review)
    case None => None
    case Some(tasks) =>
      var rejected := Decision(d.workspace, d.contact, d.conversation, d.thread, d.mode, d.action, state);
      Some(Db(db.decisions[inbound := rejected], messages, db.attempts, db.automatic, db.threads, reservations, tasks,
              db.limits))
  }

  /** The same row in another state. */
  function Moved(m: Message, state: MessageState, nextAttemptAt: Option<int>): Message {
    Message(state, m.attempts, m.startedAt, nextAttemptAt, m.sentAt, m.approved)
  }

  predicate InTheAir(m: Message) {
    m.state == Sending || m.state == Reconciling
  }

  predicate SentWithin(m: Message, from: int) {
    m.state == Sent && m.sentAt.Some? && m.sentAt.value >= from
  }

  predicate SentOnDay(m: Message, date: int) {
    m.state == Sent && m.sentAt.Some?
    && date * 86_400_000_000 + 10_800_000_000 <= m.sentAt.value < (date + 1) * 86_400_000_000 + 10_800_000_000
  }

  /** The other automatic messages of the conversation in the air or sent in the last 24 hours. */
  function RecentOf(db: Db, key: Key, conversation: nat, now: int): set<Key> {
    set k | k in db.messages && k != key && k.Auto? && k.inbound in db.decisions
            && db.decisions[k.inbound].conversation == conversation
            && (InTheAir(db.messages[k]) || SentWithin(db.messages[k], now - 86_400_000_000))
  }

  /** The other messages of the workspace in the air or sent on the day: the automatic ones, and the scheduled ones
      whose topic is automatic now. */
  function OfTheDay(db: Db, key: Key, workspace: nat, now: int): set<Key> {
    set k | k in db.messages && k != key
            && (k.Auto? ==> k.inbound in db.decisions && db.decisions[k.inbound].workspace == workspace)
            && (k.Scheduled? ==>
                  && k.attempt in db.attempts && db.attempts[k.attempt].workspace == workspace
                  && db.attempts[k.attempt].topic in db.automatic)
            && (InTheAir(db.messages[k]) || SentOnDay(db.messages[k], LocalDate(now)))
  }

  predicate HasRoom(db: Db, key: Key, workspace: nat, conversation: Option<nat>, now: int) {
    && (conversation.Some? ==> |RecentOf(db, key, conversation.value, now)| + 1 <= db.limits.conversation)
    && |OfTheDay(db, key, workspace, now)| + 1 <= db.limits.workspace
  }

  /** The final rate check refuses exactly when a limit is really reached. */
  lemma RoomExactly(db: Db, key: Key, workspace: nat, conversation: Option<nat>, now: int)
    ensures RateClear(db, key, workspace, conversation, now) <==> HasRoom(db, key, workspace, conversation, now)
  {
    if conversation.Some? { SameRecent(db, key, conversation.value, now); }
    SameDay(db, key, workspace, now);
    hide ConversationUsed, WorkspaceUsed, RecentOf, OfTheDay;
  }

  lemma SameRecent(db: Db, key: Key, conversation: nat, now: int)
    ensures ConversationUsed(db, key, conversation, now - 24 * HOUR) == |RecentOf(db, key, conversation, now)|
  {
    assert RecentOf(db, key, conversation, now)
           == set k | k in db.messages && k != key && CountsForConversation(db, k, conversation, now - 24 * HOUR);
  }

  lemma SameDay(db: Db, key: Key, workspace: nat, now: int)
    ensures WorkspaceUsed(db, key, workspace, LocalDate(now)) == |OfTheDay(db, key, workspace, now)|
  {
    var date := LocalDate(now);
    assert DayStart(date) == date * 86_400_000_000 + 10_800_000_000;
    assert DayStart(date + 1) == (date + 1) * 86_400_000_000 + 10_800_000_000;
    hide DayStart, LocalDate;
    assert OfTheDay(db, key, workspace, now)
           == set k | k in db.messages && k != key && CountsForDay(db, k, workspace, date);
  }
}
