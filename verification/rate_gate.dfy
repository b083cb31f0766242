/**
 The gate just before the provider (`_final_delivery_rate_error`) bounds what is really sent.

 The gate counts messages in flight as well as messages already sent, so a message that was in flight across the
 start of a window cannot slip past it. The proof orders messages by when they left the queue: the last one of a
 window to leave saw all the others.
 */
module RateGate {
  import opened Common
  import opened Delivery
  import opened DeliveryRuns
  import opened DeliveryInvariant
  import opened DeliverySerial
  import T = HumanTasks
  import C = Capacity

  /** The two populations the gate limits. */
  datatype Scope = OnConversation(conversation: nat) | OnWorkspace(workspace: nat)

  /** Whom a message belongs to: an automatic one by its decision; a scheduled one only if no person released it. */
  predicate InScope(db: Db, k: Key, scope: Scope) {
    match scope
    case OnConversation(c) => k.Auto? && k.inbound in db.decisions && db.decisions[k.inbound].conversation == c
    case OnWorkspace(ws) =>
      match k
      case Auto(_, i) => i in db.decisions && db.decisions[i].workspace == ws
      case Scheduled(a) =>
        k in db.messages && !db.messages[k].approved && a in db.attempts && db.attempts[a].workspace == ws
  }

  function LimitOf(db: Db, scope: Scope): nat {
    if scope.OnConversation? then db.limits.conversation else db.limits.workspace
  }

  /** From when on the gate counts sent messages, for a message leaving at `t`. */
  function Horizon(scope: Scope, t: int): int {
    if scope.OnConversation? then t - 24 * HOUR else DayStart(LocalDate(t))
  }

  predicate SentBetween(db: Db, k: Key, lo: int, hi: int) {
    && k in db.messages && db.messages[k].state.Sent? && db.messages[k].sentAt.Some?
    && lo <= db.messages[k].sentAt.value <= hi
  }

  /** Messages of the scope in flight, or sent at or after `from`. */
  function LiveSince(db: Db, scope: Scope, from: int): set<Key> {
    set k | k in db.messages && InScope(db, k, scope)
            && (InFlight(db.messages[k].state)
                || (db.messages[k].state.Sent? && db.messages[k].sentAt.Some? && db.messages[k].sentAt.value >= from))
  }

  /** Messages of the scope confirmed as sent in the closed window. */
  function SentIn24(db: Db, scope: Scope, lo: int, hi: int): set<Key> {
    set k | k in db.messages && InScope(db, k, scope) && SentBetween(db, k, lo, hi)
  }

  // ---------- counting along the order of departure ----------

  function CountIn(s: seq<Key>, marked: set<Key>): nat {
    if s == [] then 0 else CountIn(s[..|s| - 1], marked) + (if s[|s| - 1] in marked then 1 else 0)
  }

  lemma {:induction false} CountInMonotone(s: seq<Key>, a: set<Key>, b: set<Key>)
    requires forall k :: k in s && k in a ==> k in b
    ensures CountIn(s, a) <= CountIn(s, b)
  {
    if s != [] { CountInMonotone(s[..|s| - 1], a, b); }
  }

  lemma {:induction false} CountInIsCardinality(s: seq<Key>, marked: set<Key>)
    requires forall i, j :: 0 <= i < j < |s| ==> s[i] != s[j]
    requires forall k :: k in marked ==> k in s
    ensures CountIn(s, marked) == |marked|
  {
    if s == [] {
      assert marked == {};
    } else {
      var front, last := s[..|s| - 1], s[|s| - 1];
      assert s == front + [last];
      CountInIsCardinality(front, marked - {last});
      CountInMonotone(front, marked, marked - {last});
      CountInMonotone(front, marked - {last}, marked);
    }
  }

  // ---------- what the daily gate overlooks ----------

  /** The other messages that the gate counts for the day: it reads the topic modes of this moment. */
  function Counted(db: Db, key: Key, workspace: nat, date: int): set<Key> {
    set k | k in db.messages && k != key && CountsForDay(db, k, workspace, date)
  }

  /** Messages that no person released, in flight or confirmed since that day began, which the gate does not see. */
  function Overlooked(db: Db, key: Key, workspace: nat, date: int): set<Key> {
    LiveSince(db, OnWorkspace(workspace), DayStart(date)) - Counted(db, key, workspace, date) - {key}
  }

  /** A message that no person released leaves only while the gate overlooks nothing. */
  ghost predicate Fair(w: World, op: Op) {
    op.DoPrepare? ==>
      forall ws :: InScope(w.db, op.key, OnWorkspace(ws)) ==> Overlooked(w.db, op.key, ws, LocalDate(op.now)) == {}
  }

  ghost predicate FairRuns(w: World, ops: seq<Op>)
    decreases |ops|
  {
    ops == [] || (Enabled(w, ops[0]) && Fair(w, ops[0]) && FairRuns(Step(w, ops[0]), ops[1..]))
  }

  // ---------- the assumption on clocks ----------

  /** A confirmation is stamped no earlier than the message left. */
  ghost predicate Timed(w: World, op: Op) {
    match op
    case EndSend(p, now, answer) => answer.Accepted? ==> AfterStart(w, p, now)
    case EndLookup(p, now, answer) => answer.Accepted? ==> AfterStart(w, p, now)
    case _ => true
  }

  ghost predicate AfterStart(w: World, p: nat, now: int) {
    p in w.workers && w.workers[p].key in w.db.messages ==>
      var m := w.db.messages[w.workers[p].key]; m.startedAt.Some? ==> m.startedAt.value <= now
  }

  ghost predicate TimedRuns(w: World, ops: seq<Op>)
    decreases |ops|
  {
    ops == [] || (Enabled(w, ops[0]) && Serial(w, ops[0]) && Timed(w, ops[0])
                  && TimedRuns(Step(w, ops[0]), ops[1..]))
  }

  // ---------- the invariant ----------

  /** The message saw at most limit - 1 others, among those that left before it and are still live for it. */
  ghost predicate Gated(db: Db, before: seq<Key>, k: Key, scope: Scope) {
    k in db.messages && db.messages[k].startedAt.Some? ==>
      CountIn(before, LiveSince(db, scope, Horizon(scope, db.messages[k].startedAt.value))) + 1 <= LimitOf(db, scope)
  }

  predicate IsLive(db: Db, k: Key) {
    k in db.messages && (InFlight(db.messages[k].state) || db.messages[k].state.Sent?)
  }

  /** `daily` says whether the populations of workspaces are followed as well. */
  predicate Watched(db: Db, k: Key, scope: Scope, daily: bool) {
    IsLive(db, k) && InScope(db, k, scope) && (scope.OnWorkspace? ==> daily)
  }

  ghost predicate AllGated(db: Db, started: seq<Key>, daily: bool) {
    forall n, scope :: 0 <= n < |started| && Watched(db, started[n], scope, daily) ==>
      Gated(db, started[..n], started[n], scope)
  }

  ghost predicate SentAfterStart(db: Db) {
    forall k :: k in db.messages && db.messages[k].state.Sent? && db.messages[k].sentAt.Some?
                && db.messages[k].startedAt.Some? ==>
                  db.messages[k].startedAt.value <= db.messages[k].sentAt.value
  }

  // ---------- steps that let nothing out ----------

  lemma ScopeStays(db: Db, db': Db, k: Key, scope: Scope)
    requires Extends(db, db') && RowsOk(db) && k in db.messages && k in db'.messages
    requires db'.messages[k].approved == db.messages[k].approved
    ensures InScope(db', k, scope) <==> InScope(db, k, scope)
  {
  }

  lemma LiveShrinks(db: Db, db': Db, scope: Scope, from: int, k: Key)
    requires Extends(db, db') && NoStart(db, db') && RowsOk(db)
    requires k in db.messages && k in LiveSince(db', scope, from)
    ensures k in LiveSince(db, scope, from)
  {
    assert Advances(db, db', k);
    ScopeStays(db, db', k, scope);
  }

  lemma NoStartKeepsGated(db: Db, db': Db, started: seq<Key>, daily: bool)
    requires Extends(db, db') && NoStart(db, db') && RowsOk(db)
    requires forall k :: k in started ==> k in db.messages
    requires AllGated(db, started, daily)
    ensures AllGated(db', started, daily)
  {
    hide RowsOk, NoStart, LiveSince;
    forall n, scope | 0 <= n < |started| && Watched(db', started[n], scope, daily)
      ensures Gated(db', started[..n], started[n], scope)
    {
      var k := started[n];
      LiveBefore(db, db', k);
      ScopeStays(db, db', k, scope);
      assert Gated(db, started[..n], k, scope);
      if db'.messages[k].startedAt.Some? {
        var from := Horizon(scope, db'.messages[k].startedAt.value);
        forall j | j in started[..n] && j in LiveSince(db', scope, from) ensures j in LiveSince(db, scope, from) {
          LiveShrinks(db, db', scope, from, j);
        }
        CountInMonotone(started[..n], LiveSince(db', scope, from), LiveSince(db, scope, from));
      }
    }
  }

  /** A live row was live before, with the same start. */
  lemma LiveBefore(db: Db, db': Db, k: Key)
    requires NoStart(db, db') && k in db.messages && IsLive(db', k)
    ensures IsLive(db, k) && db'.messages[k].startedAt == db.messages[k].startedAt
    ensures db'.messages[k].approved == db.messages[k].approved
  {
    assert Advances(db, db', k);
  }

  // ---------- the step that lets a message out ----------

  /** Everything live left before, so the order counts it. */
  lemma OrderCountsLive(db: Db, started: seq<Key>, scope: Scope, from: int)
    requires RowsOk(db) && StartedOk(db, started)
    ensures CountIn(started, LiveSince(db, scope, from)) == |LiveSince(db, scope, from)|
  {
    var live := LiveSince(db, scope, from);
    forall k | k in live ensures k in started { RowIsOk(db, k); assert Attempted(db, k); }
    CountInIsCardinality(started, live);
  }

  lemma ConversationGateCounts(db: Db, key: Key, c: nat, now: int)
    requires RowsOk(db) && key in db.messages && db.messages[key].state.Queued?
    requires ConversationUsed(db, key, c, now - 24 * HOUR) + 1 <= db.limits.conversation
    ensures |LiveSince(db, OnConversation(c), now - 24 * HOUR)| + 1 <= db.limits.conversation
  {
    assert LiveSince(db, OnConversation(c), now - 24 * HOUR)
           == set k | k in db.messages && k != key && CountsForConversation(db, k, c, now - 24 * HOUR);
  }

  lemma DailyGateCounts(db: Db, key: Key, ws: nat, now: int)
    requires key in db.messages && db.messages[key].state.Queued?
    requires WorkspaceUsed(db, key, ws, LocalDate(now)) + 1 <= db.limits.workspace
    requires Overlooked(db, key, ws, LocalDate(now)) == {}
    ensures |LiveSince(db, OnWorkspace(ws), DayStart(LocalDate(now)))| + 1 <= db.limits.workspace
  {
    var live, counted := LiveSince(db, OnWorkspace(ws), DayStart(LocalDate(now))), Counted(db, key, ws, LocalDate(now));
    assert key !in live;
    hide LiveSince, Counted, CountsForDay;
    assert WorkspaceUsed(db, key, ws, LocalDate(now)) == |counted| by { CountedIsUsed(db, key, ws, LocalDate(now)); }
    SubsetSize(live, counted);
  }

  lemma CountedIsUsed(db: Db, key: Key, workspace: nat, date: int)
    ensures WorkspaceUsed(db, key, workspace, date) == |Counted(db, key, workspace, date)|
  {
  }

  lemma SubsetSize(a: set<Key>, b: set<Key>)
    requires a - b == {}
    ensures |a| <= |b|
  {
    assert b == a + (b - a);
  }

  /** The row of the departing message is new to the order, so earlier counts do not change. */
  lemma DepartureKeepsGated(db: Db, db': Db, started: seq<Key>, key: Key, now: int, daily: bool)
    requires StartsAttempt(db, db', key, now) && RowsOk(db) && ReservationsOk(db) && StartedOk(db, started)
    requires AllGated(db, started, daily)
    requires forall scope :: InScope(db', key, scope) && (scope.OnWorkspace? ==> daily) ==>
               CountIn(started, LiveSince(db, scope, Horizon(scope, now))) + 1 <= LimitOf(db, scope)
    ensures AllGated(db', started + [key], daily)
  {
    StartKeepsRows(db, db', key, now);
    hide ReservationsOk, LiveSince, RowsOk, StartsAttempt;
    var started' := started + [key];
    forall n, scope | 0 <= n < |started'| && Watched(db', started'[n], scope, daily)
      ensures Gated(db', started'[..n], started'[n], scope)
    {
      assert started'[..n] == started[..n];
      if n < |started| {
        EarlierStaysGated(db, db', started, n, scope, key, now, daily);
      } else {
        assert started[..n] == started;
        DepartingIsGated(db, db', started, scope, key, now);
      }
    }
  }

  /** Counts along the messages that left before are not affected by the departure. */
  lemma DepartureKeepsCount(db: Db, db': Db, before: seq<Key>, scope: Scope, from: int, key: Key, now: int)
    requires StartsAttempt(db, db', key, now) && RowsOk(db) && Extends(db, db')
    requires forall k :: k in before ==> Attempted(db, k)
    ensures CountIn(before, LiveSince(db', scope, from)) <= CountIn(before, LiveSince(db, scope, from))
  {
    RowIsOk(db, key);
    forall k | k in before && k in LiveSince(db', scope, from) ensures k in LiveSince(db, scope, from) {
      assert Attempted(db, k) && k != key;
      SameRowSameLife(db, db', scope, from, k);
    }
    CountInMonotone(before, LiveSince(db', scope, from), LiveSince(db, scope, from));
  }

  lemma EarlierStaysGated(db: Db, db': Db, started: seq<Key>, n: nat, scope: Scope, key: Key, now: int, daily: bool)
    requires StartsAttempt(db, db', key, now) && RowsOk(db) && StartedOk(db, started) && Extends(db, db')
    requires AllGated(db, started, daily) && n < |started| && Watched(db', started[n], scope, daily)
    ensures Gated(db', started[..n], started[n], scope)
  {
    var k := started[n];
    RowIsOk(db, key);
    assert k in started && Attempted(db, k) && k != key;
    ScopeStays(db, db', k, scope);
    assert Gated(db, started[..n], k, scope);
    if db'.messages[k].startedAt.Some? {
      assert forall j :: j in started[..n] ==> j in started;
      DepartureKeepsCount(db, db', started[..n], scope, Horizon(scope, db'.messages[k].startedAt.value), key, now);
    }
  }

  lemma DepartingIsGated(db: Db, db': Db, started: seq<Key>, scope: Scope, key: Key, now: int)
    requires StartsAttempt(db, db', key, now) && RowsOk(db) && StartedOk(db, started) && Extends(db, db')
    requires InScope(db', key, scope) && key in db.messages
    requires CountIn(started, LiveSince(db, scope, Horizon(scope, now))) + 1 <= LimitOf(db, scope)
    ensures Gated(db', started, key, scope)
  {
    DepartureKeepsCount(db, db', started, scope, Horizon(scope, now), key, now);
  }

  lemma SameRowSameLife(db: Db, db': Db, scope: Scope, from: int, k: Key)
    requires Extends(db, db') && RowsOk(db)
    requires k in db.messages && k in db'.messages && db'.messages[k] == db.messages[k]
    requires k in LiveSince(db', scope, from)
    ensures k in LiveSince(db, scope, from)
  {
    ScopeStays(db, db', k, scope);
  }

  /** What the gate of a departing message promised, for each population the message joins. */
  lemma AllowedWasGated(db: Db, started: seq<Key>, key: Key, now: int, gate: SendChecks, scope: Scope, daily: bool)
    requires RowsOk(db) && ReservationsOk(db) && StartedOk(db, started)
    requires Prepare(db, key, now, gate).Effect?
    requires InScope(Prepare(db, key, now, gate).db, key, scope) && (scope.OnWorkspace? ==> daily)
    requires daily ==>
               forall ws :: InScope(db, key, OnWorkspace(ws)) ==> Overlooked(db, key, ws, LocalDate(now)) == {}
    ensures CountIn(started, LiveSince(db, scope, Horizon(scope, now))) + 1 <= LimitOf(db, scope)
  {
    PrepareEffect(db, key, now, gate);
    JoinedScope(db, Prepare(db, key, now, gate).db, key, now, scope);
    OrderCountsLive(db, started, scope, Horizon(scope, now));
    hide Prepare, RowsOk, ReservationsOk, StartedOk, ConversationUsed, WorkspaceUsed, LiveSince, Overlooked,
         StartsAttempt;
    match key {
      case Auto(kind, i) => AllowedIsReserved(db, kind, i, now, gate);
      case Scheduled(a) => OutcomeIsClear(db, a, now, gate);
    }
    assert scope.OnWorkspace? ==> Overlooked(db, key, scope.workspace, LocalDate(now)) == {};
    match scope {
      case OnConversation(c) => ConversationGateCounts(db, key, c, now);
      case OnWorkspace(ws) => DailyGateCounts(db, key, ws, now);
    }
  }

  lemma JoinedScope(db: Db, db': Db, key: Key, now: int, scope: Scope)
    requires StartsAttempt(db, db', key, now) && InScope(db', key, scope)
    ensures InScope(db, key, scope) && key in db.messages
  {
  }

  /** A draft that leaves was released by a person, or it passed the gate. */
  lemma OutcomeIsClear(db: Db, a: nat, now: int, gate: SendChecks)
    requires ScheduledOutcome(db, a, now, gate).Sending? && Scheduled(a) in db.messages
    ensures a in db.attempts
    ensures db.messages[Scheduled(a)].approved || RateClear(db, Scheduled(a), db.attempts[a].workspace, None, now)
  {
    hide RateClear;
  }

  // ---------- whole runs ----------

  ghost predicate GateInv(w: World, daily: bool) {
    SerialInv(w) && AllGated(w.db, w.started, daily) && SentAfterStart(w.db)
  }

  /** Rows stay and nothing new is confirmed. */
  ghost predicate Mild(db: Db, db': Db) {
    Extends(db, db') && forall k :: SentIn(db', k) ==> SentIn(db, k)
  }

  lemma CalmIsMild(db: Db, db': Db)
    requires Calm(db, db')
    ensures Mild(db, db')
  {
  }

  lemma RecordsAreMild(db: Db, db': Db)
    requires db'.messages == db.messages && db'.reservations == db.reservations && db'.limits == db.limits
    requires forall i :: i in db.decisions ==> i in db'.decisions && db'.decisions[i] == db.decisions[i]
    requires forall a :: a in db.attempts ==> a in db'.attempts && db'.attempts[a] == db.attempts[a]
    ensures Mild(db, db')
  {
  }

  lemma AckIsMild(db: Db, i: nat, now: int, policy: bool, address: string)
    requires RowsOk(db) && ReservationsOk(db)
    ensures Mild(db, Commit(db, AuthorizeAck(db, i, now, policy, address)))
  {
    AuthorizeAckEffect(db, i, now, policy, address);
    hide RowsOk, ReservationsOk, Calm, AckVerdict, AuthorizeAck, Commit;
    var db' := Commit(db, AuthorizeAck(db, i, now, policy, address));
    if Calm(db, db') { CalmIsMild(db, db'); }
  }

  lemma StopIsMild(db: Db, k: Key, now: int, gate: SendChecks)
    requires RowsOk(db) && ReservationsOk(db)
    ensures Prepare(db, k, now, gate).Stopped? ==> Mild(db, Prepare(db, k, now, gate).db)
  {
    PrepareEffect(db, k, now, gate);
    hide Prepare, RowsOk, ReservationsOk, Calm, StartsAttempt, SendVerdict, ScheduledOutcome;
    if Prepare(db, k, now, gate).Stopped? { CalmIsMild(db, Prepare(db, k, now, gate).db); }
  }

  lemma FailureIsMild(w: World, p: nat, now: int)
    requires Inv(w) && p in w.workers
    ensures Mild(w.db, ErrorStep(w, w.workers[p].key, now, false).db)
  {
    InvRows(w);
    hide Inv, RowsOk, ReservationsOk, RecordError, Calm, Mild, Attempted;
    RecordErrorEffect(w.db, w.workers[p].key, now, false);
    CalmIsMild(w.db, ErrorStep(w, w.workers[p].key, now, false).db);
  }

  lemma WritersAreMild(db: Db, i: nat, now: int, checks: AuthorizeChecks, a: nat, c: Option<nat>)
    requires RowsOk(db) && ReservationsOk(db)
    ensures Mild(db, Commit(db, AuthorizeReply(db, i, now, checks)))
    ensures Mild(db, Commit(db, CreateScheduled(db, a, now, c)))
    ensures Mild(db, ApproveScheduled(db, a, now)) && Mild(db, CancelScheduled(db, a))
    ensures Mild(db, ManualReplyImported(db, i))
  {
    AuthorizeReplyEffect(db, i, now, checks);
    CreateScheduledEffect(db, a, now, c);
    SmallWritersEffect(db, a, now);
    ManualReplyEffect(db, i);
    hide RowsOk, ReservationsOk, Calm, Mild, AuthorizeReply, CreateScheduled, ApproveScheduled, CancelScheduled,
         ManualReplyImported, Commit;
    CalmIsMild(db, Commit(db, AuthorizeReply(db, i, now, checks)));
    CalmIsMild(db, Commit(db, CreateScheduled(db, a, now, c)));
    CalmIsMild(db, ApproveScheduled(db, a, now));
    CalmIsMild(db, CancelScheduled(db, a));
    CalmIsMild(db, ManualReplyImported(db, i));
  }

  lemma CampaignIsMild(db: Db, inbounds: set<nat>)
    requires RowsOk(db) && ReservationsOk(db)
    ensures Mild(db, CancelCampaign(db, inbounds))
  {
    CancelCampaignEffect(db, inbounds);
    hide RowsOk, ReservationsOk, Calm, Mild, CancelCampaign;
    CalmIsMild(db, CancelCampaign(db, inbounds));
  }

  lemma RowsOfInv(w: World)
    requires Inv(w)
    ensures RowsOk(w.db) && ReservationsOk(w.db)
  {
    hide RowsOk, ReservationsOk;
  }

  /** A step that neither hands an effect to a worker nor ends a provider call. */
  lemma MildStep(w: World, op: Op)
    requires Inv(w) && Enabled(w, op) && !op.EndSend? && !op.EndLookup?
    requires !(op.DoPrepare? && Prepare(w.db, op.key, op.now, op.gate).Effect?)
    ensures Mild(w.db, Step(w, op).db)
  {
    hide Inv, Prepare, AuthorizeReply, AuthorizeAck, CreateScheduled, ManualReplyImported, ApproveScheduled,
         CancelScheduled, CancelCampaign, RowsOk, ReservationsOk, T.ApplyTask, AnswerStep, ErrorStep, Mild, Commit;
    RowsOfInv(w);
    RecordsAreMild(w.db, w.db);
    var none := AuthorizeChecks(true, true, true, true, "");
    match op
    case Decide(_, _) => RecordsAreMild(w.db, Step(w, op).db);
    case PlanAttempt(_, _) => RecordsAreMild(w.db, Step(w, op).db);
    case DoTask(_) => RecordsAreMild(w.db, Step(w, op).db);
    case DoSetMode(_, _, _) => RecordsAreMild(w.db, Step(w, op).db);
    case DoAuthorizeReply(i, now, checks) => WritersAreMild(w.db, i, now, checks, 0, None);
    case DoAuthorizeAck(i, now, policy, address) => AckIsMild(w.db, i, now, policy, address);
    case DoCreateScheduled(a, now, c) => WritersAreMild(w.db, 0, now, none, a, c);
    case DoApproveScheduled(a, now) => WritersAreMild(w.db, 0, now, none, a, None);
    case DoCancelScheduled(a) => WritersAreMild(w.db, 0, 0, none, a, None);
    case DoManualReply(i) => WritersAreMild(w.db, i, 0, none, 0, None);
    case DoCancelCampaign(inbounds) => CampaignIsMild(w.db, inbounds);
    case DoPrepare(_, k, now, gate) => StopIsMild(w.db, k, now, gate);
    case RecordFailure(p, now) => FailureIsMild(w, p, now);
    case _ =>
  }

  lemma StartExtends(db: Db, k: Key, now: int, gate: SendChecks)
    requires RowsOk(db) && ReservationsOk(db) && Prepare(db, k, now, gate).Effect?
    ensures Extends(db, Prepare(db, k, now, gate).db)
  {
    PrepareEffect(db, k, now, gate);
    hide Prepare, RowsOk, ReservationsOk, SendVerdict, ScheduledOutcome, StartsAttempt;
    StartKeepsRows(db, Prepare(db, k, now, gate).db, k, now);
  }

  lemma EndExtends(w: World, p: nat, now: int, answer: Answer)
    requires Inv(w) && p in w.workers && !w.workers[p].Failing?
    ensures Extends(w.db, AnswerStep(w, w.workers[p].key, now, answer).db)
  {
    InvRows(w);
    hide Inv, RowsOk, ReservationsOk, AnswerStep, Extends;
    AnswerExtends(w, w.workers[p].key, now, answer);
  }

  lemma MildExtends(db: Db, db': Db)
    requires Mild(db, db')
    ensures Extends(db, db')
  {
  }

  lemma StepExtends(w: World, op: Op)
    requires Inv(w) && Enabled(w, op)
    ensures Extends(w.db, Step(w, op).db)
  {
    hide Inv, Prepare, AuthorizeReply, AuthorizeAck, CreateScheduled, ManualReplyImported, ApproveScheduled,
         CancelScheduled, CancelCampaign, RowsOk, ReservationsOk, T.ApplyTask, AnswerStep, ErrorStep, Extends, Mild,
         Commit;
    if op.DoPrepare? && Prepare(w.db, op.key, op.now, op.gate).Effect? {
      RowsOfInv(w);
      StartExtends(w.db, op.key, op.now, op.gate);
    } else if op.EndSend? || op.EndLookup? {
      EndExtends(w, op.worker, op.now, op.answer);
    } else {
      MildStep(w, op);
      MildExtends(w.db, Step(w, op).db);
    }
  }

  lemma AnswerExtends(w: World, key: Key, now: int, answer: Answer)
    requires RowsOk(w.db) && ReservationsOk(w.db) && Attempted(w.db, key)
    ensures Extends(w.db, AnswerStep(w, key, now, answer).db)
  {
    hide Confirm, RecordError, RowsOk, ReservationsOk, Tied;
    match answer
    case Accepted(thread, connected) =>
      if InFlight(w.db.messages[key].state) && Confirm(w.db, key, now, thread, connected).Some? {
        ConfirmEffect(w.db, key, now, thread, connected);
      }
    case Ambiguous => RecordErrorEffect(w.db, key, now, true);
    case _ => RecordErrorEffect(w.db, key, now, false);
  }

  lemma StepSentAfterStart(w: World, op: Op, daily: bool)
    requires GateInv(w, daily) && Enabled(w, op) && Serial(w, op) && Timed(w, op)
    ensures SentAfterStart(Step(w, op).db)
  {
    GateParts(w, daily);
    hide Inv, OneWorker, WorkersHoldRows, AllGated, Prepare, RowsOk, ReservationsOk, SentAfterStart, Step;
    if op.EndSend? || op.EndLookup? {
      EndSentAfterStart(w, op);
    } else if op.DoPrepare? && Prepare(w.db, op.key, op.now, op.gate).Effect? {
      StartSentAfterStart(w.db, op.key, op.now, op.gate);
      StartStep(w, op);
    } else {
      MildSentAfterStart(w, op);
    }
  }

  lemma GateParts(w: World, daily: bool)
    requires GateInv(w, daily)
    ensures SerialInv(w) && SentAfterStart(w.db) && RowsOk(w.db) && ReservationsOk(w.db)
  {
    hide RowsOk, ReservationsOk, OneWorker, WorkersHoldRows, SentAfterStart;
  }

  lemma StartStep(w: World, op: Op)
    requires Enabled(w, op) && op.DoPrepare? && Prepare(w.db, op.key, op.now, op.gate).Effect?
    ensures Step(w, op).db == Prepare(w.db, op.key, op.now, op.gate).db
  {
    hide Prepare;
  }

  lemma MildSentAfterStart(w: World, op: Op)
    requires SerialInv(w) && SentAfterStart(w.db) && Enabled(w, op) && Serial(w, op)
    requires !op.EndSend? && !op.EndLookup?
    requires !(op.DoPrepare? && Prepare(w.db, op.key, op.now, op.gate).Effect?)
    ensures SentAfterStart(Step(w, op).db)
  {
    hide Inv, OneWorker, WorkersHoldRows, Prepare, Step, Enabled, SentAfterStart, NoStart;
    SerialStepKeepsWorkers(w, op);
    MildStep(w, op);
    SameSent(w.db, Step(w, op).db);
  }

  lemma EndSentAfterStart(w: World, op: Op)
    requires SerialInv(w) && SentAfterStart(w.db) && Enabled(w, op) && Timed(w, op)
    requires op.EndSend? || op.EndLookup?
    ensures SentAfterStart(Step(w, op).db)
  {
    InvRows(w);
    hide Inv, OneWorker, WorkersHoldRows, RowsOk, ReservationsOk, AnswerStep, SentAfterStart;
    HeldRow(w, op.worker);
    AnswerSentAfterStart(w, w.workers[op.worker].key, op.now, op.answer);
  }

  lemma StartSentAfterStart(db: Db, k: Key, now: int, gate: SendChecks)
    requires RowsOk(db) && ReservationsOk(db) && SentAfterStart(db) && Prepare(db, k, now, gate).Effect?
    ensures SentAfterStart(Prepare(db, k, now, gate).db)
  {
    PrepareEffect(db, k, now, gate);
    hide Prepare, RowsOk, ReservationsOk, SendVerdict, ScheduledOutcome;
  }

  lemma SameSent(db: Db, db': Db)
    requires NoStart(db, db') && SentAfterStart(db)
    requires forall k :: SentIn(db', k) ==> SentIn(db, k)
    ensures SentAfterStart(db')
  {
    forall k | SentIn(db', k) ensures db'.messages[k] == db.messages[k] {
      assert Advances(db, db', k) && SentIn(db, k);
    }
    assert forall k :: k in db'.messages && db'.messages[k].state.Sent? ==> SentIn(db', k);
  }

  lemma AnswerSentAfterStart(w: World, key: Key, now: int, answer: Answer)
    requires RowsOk(w.db) && ReservationsOk(w.db) && SentAfterStart(w.db)
    requires key in w.db.messages && InFlight(w.db.messages[key].state)
    requires answer.Accepted? && w.db.messages[key].startedAt.Some? ==> w.db.messages[key].startedAt.value <= now
    ensures SentAfterStart(AnswerStep(w, key, now, answer).db)
  {
    AnswerForward(w, key, now, answer);
    RowIsOk(w.db, key);
    hide Confirm, RecordError, RowsOk, ReservationsOk, Tied;
    match answer
    case Accepted(thread, connected) =>
      if Confirm(w.db, key, now, thread, connected).Some? { ConfirmEffect(w.db, key, now, thread, connected); }
    case Ambiguous =>
      RecordErrorEffect(w.db, key, now, true); SameSent(w.db, AnswerStep(w, key, now, answer).db);
    case _ =>
      RecordErrorEffect(w.db, key, now, false); SameSent(w.db, AnswerStep(w, key, now, answer).db);
  }

  lemma StepKeepsGated(w: World, op: Op, daily: bool)
    requires GateInv(w, daily) && Enabled(w, op) && Serial(w, op) && Timed(w, op)
    requires daily ==> Fair(w, op)
    ensures AllGated(Step(w, op).db, Step(w, op).started, daily)
  {
    InvRows(w);
    InvStarted(w);
    if op.DoPrepare? && Prepare(w.db, op.key, op.now, op.gate).Effect? {
      PrepareEffect(w.db, op.key, op.now, op.gate);
      hide Inv, OneWorker, WorkersHoldRows, Prepare, RowsOk, ReservationsOk, StartedOk, AllGated, LiveSince;
      forall scope | InScope(Prepare(w.db, op.key, op.now, op.gate).db, op.key, scope) && (scope.OnWorkspace? ==> daily)
        ensures CountIn(w.started, LiveSince(w.db, scope, Horizon(scope, op.now))) + 1 <= LimitOf(w.db, scope)
      {
        AllowedWasGated(w.db, w.started, op.key, op.now, op.gate, scope, daily);
      }
      DepartureKeepsGated(w.db, Prepare(w.db, op.key, op.now, op.gate).db, w.started, op.key, op.now, daily);
    } else {
      StepExtends(w, op);
      SerialStepKeepsWorkers(w, op);
      OrderStays(w, op);
      assert forall k :: k in w.started ==> k in w.db.messages;
      hide Inv, OneWorker, WorkersHoldRows, Step, RowsOk, ReservationsOk, AllGated, NoStart;
      NoStartKeepsGated(w.db, Step(w, op).db, w.started, daily);
    }
  }

  lemma OrderStays(w: World, op: Op)
    requires Enabled(w, op) && !(op.DoPrepare? && Prepare(w.db, op.key, op.now, op.gate).Effect?)
    ensures Step(w, op).started == w.started
  {
    hide Prepare, Confirm, RecordError;
  }

  lemma InvStarted(w: World)
    requires Inv(w)
    ensures StartedOk(w.db, w.started)
  {
    hide RowsOk, ReservationsOk, Backed, RowsMatchHistory, WorkersOk, AtMostOnce, AcksFollowProposals;
  }

  lemma {:induction false} RunKeepsGate(w: World, ops: seq<Op>, daily: bool)
    requires GateInv(w, daily) && TimedRuns(w, ops) && Runs(w, ops) && (daily ==> FairRuns(w, ops))
    ensures GateInv(Final(w, ops), daily)
    decreases |ops|
  {
    hide Inv, OneWorker, WorkersHoldRows, Step, Enabled, Serial, Timed, Fair, AllGated, SentAfterStart;
    if ops != [] {
      SerialStepKeepsInv(w, ops[0]);
      StepKeepsGated(w, ops[0], daily);
      StepSentAfterStart(w, ops[0], daily);
      RunKeepsGate(Step(w, ops[0]), ops[1..], daily);
    }
  }

  lemma InitialGate(w: World, daily: bool)
    requires Initial(w)
    ensures GateInv(w, daily)
  {
    InitialInv(w);
    hide Inv;
  }

  // ---------- what was really sent ----------

  /** Up to any point of the order, the messages sent in a window stay within the limit: the last of them to leave
      still counts all the others. */
  lemma {:induction false} SentPrefixBounded(db: Db, started: seq<Key>, n: nat, scope: Scope, lo: int, hi: int,
                                             daily: bool)
    requires AllGated(db, started, daily) && SentAfterStart(db) && RowsOk(db) && n <= |started|
    requires scope.OnWorkspace? ==> daily
    requires forall t :: t <= hi ==> Horizon(scope, t) <= lo
    ensures CountIn(started[..n], SentIn24(db, scope, lo, hi)) <= LimitOf(db, scope)
  {
    var sent := SentIn24(db, scope, lo, hi);
    if n > 0 {
      assert started[..n][..n - 1] == started[..n - 1];
      var k := started[n - 1];
      if k in sent {
        RowIsOk(db, k);
        assert Gated(db, started[..n - 1], k, scope);
        CountInMonotone(started[..n - 1], sent, LiveSince(db, scope, Horizon(scope, db.messages[k].startedAt.value)));
      } else {
        SentPrefixBounded(db, started, n - 1, scope, lo, hi, daily);
      }
    }
  }

  lemma SentBounded(w: World, scope: Scope, lo: int, hi: int, daily: bool)
    requires GateInv(w, daily)
    requires scope.OnWorkspace? ==> daily
    requires forall t :: t <= hi ==> Horizon(scope, t) <= lo
    ensures |SentIn24(w.db, scope, lo, hi)| <= LimitOf(w.db, scope)
  {
    InvRows(w);
    InvStarted(w);
    hide Inv, OneWorker, WorkersHoldRows, AllGated, ReservationsOk;
    var sent := SentIn24(w.db, scope, lo, hi);
    forall k | k in sent ensures k in w.started { RowIsOk(w.db, k); assert Attempted(w.db, k); }
    CountInIsCardinality(w.started, sent);
    SentPrefixBounded(w.db, w.started, |w.started|, scope, lo, hi, daily);
    assert w.started[..|w.started|] == w.started;
  }

  /** In any closed 24 hour window the automatic messages of one conversation confirmed as sent in it number at
      most the conversation limit. Clocks may disagree as long as no message is confirmed before it left. */
  lemma ConversationSendsBounded(w: World, ops: seq<Op>, conversation: nat, from: int)
    requires Initial(w) && TimedRuns(w, ops) && Runs(w, ops)
    ensures var db := Final(w, ops).db;
            |set k | k in db.messages && k.Auto? && k.inbound in db.decisions
                     && db.decisions[k.inbound].conversation == conversation
                     && db.messages[k].state == Sent && db.messages[k].sentAt.Some?
                     && from <= db.messages[k].sentAt.value && db.messages[k].sentAt.value <= from + 24 * HOUR|
            <= db.limits.conversation
  {
    hide GateInv, Step, Enabled;
    InitialGate(w, false);
    RunKeepsGate(w, ops, false);
    SentBounded(Final(w, ops), OnConversation(conversation), from, from + 24 * HOUR, false);
    var db := Final(w, ops).db;
    assert SentIn24(db, OnConversation(conversation), from, from + 24 * HOUR)
           == set k | k in db.messages && k.Auto? && k.inbound in db.decisions
                      && db.decisions[k.inbound].conversation == conversation
                      && db.messages[k].state == Sent && db.messages[k].sentAt.Some?
                      && from <= db.messages[k].sentAt.value && db.messages[k].sentAt.value <= from + 24 * HOUR;
  }

  lemma DayHorizon(date: int, t: int)
    requires t <= DayStart(date + 1) - 1
    ensures DayStart(LocalDate(t)) <= DayStart(date)
  {
  }

  /** On any local day the messages of one workspace that no person released and that were confirmed as sent number at
      most the workspace limit, in runs whose gate overlooks nothing. */
  lemma FairRunsKeepTheDailyLimit(w: World, ops: seq<Op>, workspace: nat, date: int)
    requires Initial(w) && TimedRuns(w, ops) && Runs(w, ops) && FairRuns(w, ops)
    ensures var db := Final(w, ops).db;
            |set k | k in db.messages && InScope(db, k, OnWorkspace(workspace))
                     && SentBetween(db, k, DayStart(date), DayStart(date + 1) - 1)| <= db.limits.workspace
  {
    hide GateInv, Step, Enabled;
    InitialGate(w, true);
    RunKeepsGate(w, ops, true);
    forall t | t <= DayStart(date + 1) - 1 ensures Horizon(OnWorkspace(workspace), t) <= DayStart(date) {
      DayHorizon(date, t);
    }
    SentBounded(Final(w, ops), OnWorkspace(workspace), DayStart(date), DayStart(date + 1) - 1, true);
    var db := Final(w, ops).db;
    assert SentIn24(db, OnWorkspace(workspace), DayStart(date), DayStart(date + 1) - 1)
           == set k | k in db.messages && InScope(db, k, OnWorkspace(workspace))
                      && SentBetween(db, k, DayStart(date), DayStart(date + 1) - 1);
  }
}
