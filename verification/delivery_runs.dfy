/**
 Every interleaving of the delivery protocol, and what no interleaving can break.

 A world is the database, the workers in the middle of a delivery, and a history of what left for Gmail and
 what Gmail confirmed. One operation is one transaction, or one end of a provider call; a worker may crash at
 any point, and a run is any sequence of enabled operations.
 */
module DeliveryRuns {
  import opened Common
  import opened Delivery
  import T = HumanTasks
  import C = Capacity

  // ---------- worlds ----------

  /** What a worker holds: an effect not yet handed over, an open send, an open lookup by Message-ID, or a
      preparation that raised and is about to be recorded as an error. */
  datatype Worker = Armed(key: Key) | Calling(key: Key) | LookingUp(key: Key) | Failing(key: Key)

  datatype Event = HandedOver(key: Key) | Confirmed(key: Key, tied: bool)

  /** `started` lists the messages in the order in which they left the queue. */
  datatype World = World(db: Db, workers: map<nat, Worker>, history: seq<Event>, started: seq<Key>)

  /** How a provider call ends. A send never answers `NotFound`; a crash has no answer at all. */
  datatype Answer = Accepted(thread: string, connected: bool) | NotFound | Ambiguous | HardError

  datatype Op =
    | Decide(inbound: nat, decision: Decision)
    | PlanAttempt(attempt: nat, info: Attempt)
    | DoAuthorizeReply(inbound: nat, now: int, checks: AuthorizeChecks)
    | DoAuthorizeAck(inbound: nat, now: int, policy: bool, address: string)
    | DoCreateScheduled(attempt: nat, now: int, conversation: Option<nat>)
    | DoApproveScheduled(attempt: nat, now: int)
    | DoCancelScheduled(attempt: nat)
    | DoSetMode(topic: nat, automatic: bool, now: int)
    | DoManualReply(inbound: nat)
    | DoCancelCampaign(inbounds: set<nat>)
    | DoTask(op: T.TaskOp)
    | DoPrepare(worker: nat, key: Key, now: int, gate: SendChecks)
    | PrepareFails(worker: nat, key: Key)
    | RecordFailure(worker: nat, now: int)
    | HandOver(worker: nat)
    | EndSend(worker: nat, now: int, answer: Answer)
    | StartLookup(worker: nat, key: Key)
    | EndLookup(worker: nat, now: int, answer: Answer)
    | Crash(worker: nat)

  /** A decision is recorded once per inbound message, and never as already executed. */
  predicate FreshDecision(d: Decision) {
    d.state in {ShadowRecorded, NoAction, AutoEligible, HumanRequired, Failed}
    && (d.state.AutoEligible? ==> d.mode.Live?)
  }

  ghost predicate Enabled(w: World, op: Op) {
    match op
    case Decide(i, d) => i !in w.db.decisions && FreshDecision(d)
    case PlanAttempt(a, _) => a !in w.db.attempts
    case DoPrepare(p, k, _, _) => p !in w.workers
    case PrepareFails(p, k) => p !in w.workers && k in w.db.messages && w.db.messages[k].state.Queued?
    case RecordFailure(p, _) => p in w.workers && w.workers[p].Failing?
    case HandOver(p) => p in w.workers && w.workers[p].Armed?
    case EndSend(p, _, answer) => p in w.workers && w.workers[p].Calling? && !answer.NotFound?
    case StartLookup(p, k) => p !in w.workers && k in w.db.messages && InFlight(w.db.messages[k].state)
    case EndLookup(p, _, _) => p in w.workers && w.workers[p].LookingUp?
    case Crash(p) => p in w.workers
    case _ => true
  }

  // ---------- steps ----------

  function Commit(db: Db, result: Option<Db>): Db {
    if result.Some? then result.value else db
  }

  /** The confirmation of `key`, logged when it commits on a message still in flight. */
  function ConfirmStep(w: World, key: Key, now: int, thread: string, connected: bool): World {
    var result := Confirm(w.db, key, now, thread, connected);
    if result.Some? && key in w.db.messages && InFlight(w.db.messages[key].state)
    then w.(db := result.value, history := w.history + [Confirmed(key, Tied(w.db, key, thread, connected))])
    else w
  }

  function ErrorStep(w: World, key: Key, now: int, ambiguous: bool): World {
    w.(db := Commit(w.db, RecordError(w.db, key, now, ambiguous)))
  }

  function AnswerStep(w: World, key: Key, now: int, answer: Answer): World {
    match answer
    case Accepted(thread, connected) => ConfirmStep(w, key, now, thread, connected)
    case Ambiguous => ErrorStep(w, key, now, true)
    case NotFound | HardError => ErrorStep(w, key, now, false)
  }

  ghost function Step(w: World, op: Op): World
    requires Enabled(w, op)
  {
    match op
    case Decide(i, d) => w.(db := w.db.(decisions := w.db.decisions[i := d]))
    case PlanAttempt(a, info) => w.(db := w.db.(attempts := w.db.attempts[a := info]))
    case DoAuthorizeReply(i, now, checks) => w.(db := Commit(w.db, AuthorizeReply(w.db, i, now, checks)))
    case DoAuthorizeAck(i, now, policy, address) => w.(db := Commit(w.db, AuthorizeAck(w.db, i, now, policy, address)))
    case DoCreateScheduled(a, now, c) => w.(db := Commit(w.db, CreateScheduled(w.db, a, now, c)))
    case DoApproveScheduled(a, now) => w.(db := ApproveScheduled(w.db, a, now))
    case DoCancelScheduled(a) => w.(db := CancelScheduled(w.db, a))
    case DoSetMode(t, automatic, _) => w.(db := SetMode(w.db, t, automatic))
    case DoManualReply(i) => w.(db := ManualReplyImported(w.db, i))
    case DoCancelCampaign(inbounds) => w.(db := CancelCampaign(w.db, inbounds))
    case DoTask(t) => w.(db := w.db.(tasks := T.ApplyTask(w.db.tasks, t)))
    case DoPrepare(p, k, now, gate) =>
      (match Prepare(w.db, k, now, gate)
       case Raised => w
       case Stopped(db) => w.(db := db)
       case Effect(db) => w.(db := db, workers := w.workers[p := Armed(k)], started := w.started + [k]))
    case PrepareFails(p, k) => w.(workers := w.workers[p := Failing(k)])
    case RecordFailure(p, now) => ErrorStep(w, w.workers[p].key, now, false).(workers := w.workers - {p})
    case HandOver(p) =>
      w.(workers := w.workers[p := Calling(w.workers[p].key)], history := w.history + [HandedOver(w.workers[p].key)])
    case EndSend(p, now, answer) => AnswerStep(w, w.workers[p].key, now, answer).(workers := w.workers - {p})
    case StartLookup(p, k) => w.(workers := w.workers[p := LookingUp(k)])
    case EndLookup(p, now, answer) => AnswerStep(w, w.workers[p].key, now, answer).(workers := w.workers - {p})
    case Crash(p) => w.(workers := w.workers - {p})
  }

  /** A database before any automatic work: decisions, messages and reservations are still to come. */
  ghost predicate Initial(w: World) {
    && w.db.decisions == map[] && w.db.messages == map[] && w.db.attempts == map[]
    && w.db.reservations == []
    && T.Consistent(w.db.tasks)
    && w.workers == map[] && w.history == [] && w.started == []
  }

  ghost predicate Runs(w: World, ops: seq<Op>)
    decreases |ops|
  {
    ops == [] || (Enabled(w, ops[0]) && Runs(Step(w, ops[0]), ops[1..]))
  }

  ghost function Final(w: World, ops: seq<Op>): World
    requires Runs(w, ops)
    decreases |ops|
  {
    if ops == [] then w else Final(Step(w, ops[0]), ops[1..])
  }
}
