/**
 The exact answers of the delivery transactions in every state that a run reaches.
 */
module Reachable {
  import opened Common
  import opened Delivery
  import opened DeliveryRuns
  import opened DeliveryInvariant
  import opened DeliverySafety
  import opened DeliveryAnswers
  import opened Authorizing
  import opened Departing
  import T = HumanTasks
  import C = Capacity
  import A = Admission

  /** What the exact answers ask of the tables holds after every run. */
  lemma TablesAreSound(w: World, ops: seq<Op>)
    requires Initial(w) && Runs(w, ops)
    ensures T.Consistent(Final(w, ops).db.tasks) && A.Unique(Final(w, ops).db.reservations)
  {
    hide T.Consistent, A.Unique;
    InitialInv(w);
    RunKeepsInv(w, ops);
    RunTasks(w, ops);
    A.UniqueIsOnePerSource(Final(w, ops).db.reservations);
  }

  /** In every run, the next preparation of an automatic message starts it if and only if the tables and the verdicts
      say so. */
  lemma AutomaticStartsExactly(w: World, ops: seq<Op>, kind: Kind, inbound: nat, worker: nat, now: int,
                               checks: SendChecks)
    requires Initial(w) && Runs(w, ops) && worker !in Final(w, ops).workers
    ensures var end := Final(w, ops);
            Step(end, DoPrepare(worker, Auto(kind, inbound), now, checks)).started
              == end.started + [Auto(kind, inbound)]
            <==> AutomaticMayLeave(end.db, kind, inbound, now, checks)
  {
    TablesAreSound(w, ops);
    AutomaticLeavesExactly(Final(w, ops).db, kind, inbound, now, checks);
    Longer(Final(w, ops).started, Auto(kind, inbound));
    hide Prepare, T.Consistent, A.Unique, AutomaticMayLeave;
  }

  /** The same for a scheduled message. */
  lemma ScheduledStartsExactly(w: World, ops: seq<Op>, attempt: nat, worker: nat, now: int, checks: SendChecks)
    requires Initial(w) && Runs(w, ops) && worker !in Final(w, ops).workers
    ensures var end := Final(w, ops);
            Step(end, DoPrepare(worker, Scheduled(attempt), now, checks)).started
              == end.started + [Scheduled(attempt)]
            <==> ScheduledMayLeave(end.db, attempt, now, checks)
  {
    TablesAreSound(w, ops);
    ScheduledLeavesExactly(Final(w, ops).db, attempt, now, checks);
    Longer(Final(w, ops).started, Scheduled(attempt));
    hide Prepare, T.Consistent, A.Unique, ScheduledMayLeave;
  }

  lemma Longer(started: seq<Key>, key: Key)
    ensures started != started + [key]
  {
    assert |started + [key]| == |started| + 1;
  }

  /** In every run, authorising a decision queues its first message if and only if nothing objects and its slots fit. */
  lemma ReplyIsQueuedExactly(w: World, ops: seq<Op>, inbound: nat, now: int, checks: AuthorizeChecks)
    requires Initial(w) && Runs(w, ops)
    ensures var end := Final(w, ops);
            Step(end, DoAuthorizeReply(inbound, now, checks)).db.messages != end.db.messages
            <==> GetsThrough(end.db, inbound, now, checks)
  {
    TablesAreSound(w, ops);
    LetsThroughExactly(Final(w, ops).db, inbound, now, checks);
    hide AuthorizeReply, T.Consistent, A.Unique, GetsThrough;
  }
}
