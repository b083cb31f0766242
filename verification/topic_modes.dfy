/**
 The mode of a follow-up topic and the daily limit: the gate counts scheduled messages by the mode their topic has
 now, not by the mode under which they left.

 Only one step can hide a message from the gate: a topic is set to review while one of its messages, released by
 nobody, is in flight or was confirmed on this day. Runs without such a step keep the daily limit, however often modes
 change.
 */
module TopicModes {
  import opened Common
  import opened Delivery
  import opened DeliveryRuns
  import opened DeliveryFrames
  import opened DeliveryInvariant
  import opened DeliverySerial
  import opened RateGate

  // ---------- the step that hides a message ----------

  predicate LiveFrom(m: Message, from: int) {
    InFlight(m.state) || (m.state.Sent? && m.sentAt.Some? && m.sentAt.value >= from)
  }

  /** A scheduled message that no person released, in flight or confirmed since the day of `clock` began. */
  predicate Unreleased(db: Db, k: Key, clock: int) {
    k in db.messages && k.Scheduled? && !db.messages[k].approved
    && LiveFrom(db.messages[k], DayStart(LocalDate(clock)))
  }

  /** The daily gate sees every such message: its topic is automatic. */
  ghost predicate AllSeen(db: Db, clock: int) {
    forall k :: Unreleased(db, k, clock) ==> TopicAutomatic(db, k.attempt)
  }

  /** What a change of the topic would hide, read off the rows before it. */
  ghost predicate HasUnreleased(db: Db, topic: nat, clock: int) {
    exists k :: Unreleased(db, k, clock) && k.attempt in db.attempts && db.attempts[k.attempt].topic == topic
  }

  /** The latest change of a mode. */
  function Latest(clock: int, op: Op): int {
    if op.DoSetMode? && op.now > clock then op.now else clock
  }

  /** No topic is set to review over messages of the day that nobody released. */
  ghost predicate Guarded(w: World, clock: int, op: Op) {
    op.DoSetMode? && !op.automatic ==> !HasUnreleased(w.db, op.topic, Latest(clock, op))
  }

  lemma ModeChangeExactly(db: Db, topic: nat, automatic: bool, clock: int, clock': int)
    requires RowsOk(db) && AllSeen(db, clock) && clock <= clock'
    ensures AllSeen(SetMode(db, topic, automatic), clock') <==> automatic || !HasUnreleased(db, topic, clock')
  {
    var db' := SetMode(db, topic, automatic);
    LaterSeesLess(db, clock, clock');
    if !automatic && HasUnreleased(db, topic, clock') {
      var k :| Unreleased(db, k, clock') && k.attempt in db.attempts && db.attempts[k.attempt].topic == topic;
      assert Unreleased(db', k, clock') && !TopicAutomatic(db', k.attempt);
    } else {
      forall k | Unreleased(db', k, clock') ensures TopicAutomatic(db', k.attempt) {
        assert Unreleased(db, k, clock') && TopicAutomatic(db, k.attempt);
      }
    }
  }

  lemma LaterSeesLess(db: Db, clock: int, clock': int)
    requires AllSeen(db, clock) && clock <= clock'
    ensures AllSeen(db, clock')
  {
    forall k | Unreleased(db, k, clock') ensures TopicAutomatic(db, k.attempt) {
      assert DayStart(LocalDate(clock)) <= DayStart(LocalDate(clock'));
      assert Unreleased(db, k, clock);
    }
  }

  /** Steps other than a departure and a mode change bring no such message about. */
  lemma SameModesSeen(db: Db, db': Db, clock: int)
    requires AllSeen(db, clock) && RowsOk(db) && Extends(db, db') && NoStart(db, db') && db'.automatic == db.automatic
    requires forall k :: SentIn(db', k) && !SentIn(db, k) ==> k in db.messages && InFlight(db.messages[k].state)
    ensures AllSeen(db', clock)
  {
    forall k | Unreleased(db', k, clock) ensures TopicAutomatic(db', k.attempt) {
      assert Advances(db, db', k) && IsLive(db, k);
      if db'.messages[k].state.Sent? { assert SentIn(db', k); }
      assert Unreleased(db, k, clock);
    }
  }

  lemma SentWasInFlight(db: Db, db': Db)
    requires NoStart(db, db')
    ensures forall k :: SentIn(db', k) && !SentIn(db, k) ==> k in db.messages && InFlight(db.messages[k].state)
  {
    forall k | SentIn(db', k) && !SentIn(db, k) ensures k in db.messages && InFlight(db.messages[k].state) {
      assert Advances(db, db', k);
    }
  }

  /** A message that leaves unreleased leaves under an automatic topic. */
  lemma DepartureSeen(db: Db, key: Key, now: int, gate: SendChecks, clock: int)
    requires RowsOk(db) && ReservationsOk(db) && AllSeen(db, clock) && Prepare(db, key, now, gate).Effect?
    ensures AllSeen(Prepare(db, key, now, gate).db, clock)
  {
    PrepareEffect(db, key, now, gate);
    var db' := Prepare(db, key, now, gate).db;
    hide Prepare, RowsOk, ReservationsOk, SendVerdict;
    forall k | Unreleased(db', k, clock) ensures TopicAutomatic(db', k.attempt) {
      if k == key {
        UnreleasedLeavesAutomatic(db, k.attempt, now, gate);
      } else {
        assert Unreleased(db, k, clock);
      }
    }
  }

  lemma UnreleasedLeavesAutomatic(db: Db, attempt: nat, now: int, gate: SendChecks)
    requires ScheduledOutcome(db, attempt, now, gate).Sending? && Scheduled(attempt) in db.messages
    ensures db.messages[Scheduled(attempt)].approved || TopicAutomatic(db, attempt)
  {
    hide RateClear;
  }

  /** That the gate sees every unreleased message of the day survives a step if and only if the step is guarded. */
  lemma StepKeepsSeenExactly(w: World, clock: int, op: Op)
    requires SerialInv(w) && Enabled(w, op) && Serial(w, op) && AllSeen(w.db, clock)
    ensures AllSeen(Step(w, op).db, Latest(clock, op)) <==> Guarded(w, clock, op)
  {
    RowsOfInv(w);
    if op.DoSetMode? {
      hide Inv, RowsOk, ReservationsOk, AllSeen, SetMode;
      ModeChangeExactly(w.db, op.topic, op.automatic, clock, Latest(clock, op));
    } else if op.DoPrepare? && Prepare(w.db, op.key, op.now, op.gate).Effect? {
      hide Inv, RowsOk, ReservationsOk, AllSeen, Prepare;
      DepartureSeen(w.db, op.key, op.now, op.gate, clock);
      StartStep(w, op);
    } else {
      hide Inv, OneWorker, WorkersHoldRows, Step, RowsOk, ReservationsOk, AllSeen, NoStart, Extends, Prepare;
      SerialStepKeepsWorkers(w, op);
      StepExtends(w, op);
      ModesAndDecisionsStay(w, op);
      SentWasInFlight(w.db, Step(w, op).db);
      SameModesSeen(w.db, Step(w, op).db, clock);
    }
  }

  // ---------- whole runs ----------

  /** Whoever lets a message leave reads a clock that shows no time before an earlier confirmation or mode change. */
  ghost predicate Steady(w: World, clock: int, op: Op) {
    op.DoPrepare? ==> NothingSentAfter(w.db, op.now) && clock <= op.now
  }

  predicate NothingSentAfter(db: Db, now: int) {
    forall k :: k in db.messages && db.messages[k].state.Sent? && db.messages[k].sentAt.Some? ==>
      db.messages[k].sentAt.value <= now
  }

  ghost predicate SteadyRuns(w: World, clock: int, ops: seq<Op>)
    decreases |ops|
  {
    ops == [] || (Enabled(w, ops[0]) && Steady(w, clock, ops[0])
                  && SteadyRuns(Step(w, ops[0]), Latest(clock, ops[0]), ops[1..]))
  }

  ghost predicate GuardedRuns(w: World, clock: int, ops: seq<Op>)
    decreases |ops|
  {
    ops == [] || (Enabled(w, ops[0]) && Guarded(w, clock, ops[0])
                  && GuardedRuns(Step(w, ops[0]), Latest(clock, ops[0]), ops[1..]))
  }

  lemma SeenIsCounted(db: Db, key: Key, workspace: nat, clock: int, now: int)
    requires AllSeen(db, clock) && NothingSentAfter(db, now) && clock <= now
    ensures Overlooked(db, key, workspace, LocalDate(now)) == {}
  {
    forall k | k in LiveSince(db, OnWorkspace(workspace), DayStart(LocalDate(now)))
      ensures CountsForDay(db, k, workspace, LocalDate(now))
    {
      assert DayStart(LocalDate(clock)) <= DayStart(LocalDate(now));
      if k.Scheduled? { assert Unreleased(db, k, clock); }
    }
  }

  lemma {:induction false} GuardedRunsAreFair(w: World, clock: int, ops: seq<Op>)
    requires SerialInv(w) && TimedRuns(w, ops) && SteadyRuns(w, clock, ops) && GuardedRuns(w, clock, ops)
    requires AllSeen(w.db, clock)
    ensures FairRuns(w, ops)
    decreases |ops|
  {
    hide Inv, Enabled, Step, Serial, Timed, Guarded, OneWorker, WorkersHoldRows, AllSeen, Overlooked, NothingSentAfter;
    if ops != [] {
      var op := ops[0];
      if op.DoPrepare? {
        forall ws ensures Overlooked(w.db, op.key, ws, LocalDate(op.now)) == {} {
          SeenIsCounted(w.db, op.key, ws, clock, op.now);
        }
      }
      SerialStepKeepsInv(w, op);
      StepKeepsSeenExactly(w, clock, op);
      GuardedRunsAreFair(Step(w, op), Latest(clock, op), ops[1..]);
    }
  }

  /** On any local day the automatic replies of one workspace, and its scheduled messages that no person released,
      confirmed as sent number at most the workspace limit, when the clock does not go back and no topic is set to
      review over an unreleased message that is in flight or was confirmed on that day. */
  lemma WorkspaceSendsBounded(w: World, clock: int, ops: seq<Op>, workspace: nat, date: int)
    requires Initial(w) && TimedRuns(w, ops) && SteadyRuns(w, clock, ops) && GuardedRuns(w, clock, ops) && Runs(w, ops)
    ensures var db := Final(w, ops).db;
            |set k | k in db.messages && db.messages[k].state == Sent
                     && (k.Auto? ==> k.inbound in db.decisions && db.decisions[k.inbound].workspace == workspace)
                     && (k.Scheduled? ==> && !db.messages[k].approved && k.attempt in db.attempts
                                          && db.attempts[k.attempt].workspace == workspace)
                     && db.messages[k].sentAt.Some? && LocalDate(db.messages[k].sentAt.value) == date|
            <= db.limits.workspace
  {
    InitialGate(w, true);
    hide Inv, Step, Enabled, OneWorker, WorkersHoldRows;
    GuardedRunsAreFair(w, clock, ops);
    FairRunsKeepTheDailyLimit(w, ops, workspace, date);
    SentOnTheDay(Final(w, ops).db, workspace, date);
  }

  lemma SentOnTheDay(db: Db, workspace: nat, date: int)
    ensures (set k | k in db.messages && db.messages[k].state == Sent
                     && (k.Auto? ==> k.inbound in db.decisions && db.decisions[k.inbound].workspace == workspace)
                     && (k.Scheduled? ==> && !db.messages[k].approved && k.attempt in db.attempts
                                          && db.attempts[k.attempt].workspace == workspace)
                     && db.messages[k].sentAt.Some? && LocalDate(db.messages[k].sentAt.value) == date)
            == set k | k in db.messages && InScope(db, k, OnWorkspace(workspace))
                       && SentBetween(db, k, DayStart(date), DayStart(date + 1) - 1)
  {
    forall t ensures LocalDate(t) == date <==> DayStart(date) <= t <= DayStart(date + 1) - 1 {
    }
    hide LocalDate, DayStart;
  }
}
