/**
 Grounded replies over whole runs of the delivery protocol: the facts change while decisions wait for their delivery.

 A run interleaves the delivery protocol with changes of the approved facts, with requests that put facts in front of
 the language model, and with the recording of its validated answers. The policy verdict of the delivery transactions
 is no longer free: it is positive only if the facts gate is clear at that moment.
 */
module Grounding {
  import opened Common
  import opened Delivery
  import opened DeliveryRuns
  import opened DeliveryFrames
  import opened DeliveryInvariant
  import R = RateGate
  import K = Knowledge

  /** A request to the language model (one that failed shows no facts); `facts` is history, the tables at the time its
      context was built. */
  datatype Request = Request(workspace: nat, manifest: seq<K.Shown>, facts: K.Kb)

  /** `contents` holds the citations of each decision, and `asked` the request that it answers. */
  datatype World = World(
    delivery: DeliveryRuns.World, kb: K.Kb, requests: map<nat, Request>, contents: map<nat, K.Decision>,
    asked: map<nat, nat>)

  datatype Op =
    | Facts(change: K.KbOp)
    | BuildContext(request: nat, workspace: nat, manifest: seq<K.Shown>)
    | Record(inbound: nat, decision: Decision, request: nat, cited: seq<nat>, answer: K.Answer, candidates: set<nat>)
    | Deliver(op: DeliveryRuns.Op)

  predicate Answers(action: Action, answer: K.Answer) {
    (action.Reply? <==> answer.Reply?) && (action.RedirectProposal? <==> answer.Redirect?)
  }

  function Content(w: World, request: nat, cited: seq<nat>, answer: K.Answer): K.Decision
    requires request in w.requests
  {
    K.Decision(w.requests[request].workspace, w.requests[request].manifest, cited, answer)
  }

  predicate FactsGate(w: World, inbound: nat) {
    inbound in w.contents && K.FactsClear(w.kb, w.contents[inbound])
  }

  /** `_decision_policy_error` comes after `_selected_facts_error`. */
  predicate Linked(w: World, op: DeliveryRuns.Op) {
    match op
    case DoAuthorizeReply(i, _, checks) => checks.policy ==> FactsGate(w, i)
    case DoAuthorizeAck(i, _, policy, _) => policy ==> FactsGate(w, i)
    case DoPrepare(_, k, _, gate) => k.Auto? && gate.policy ==> FactsGate(w, k.inbound)
    case _ => true
  }

  ghost predicate Enabled(w: World, op: Op) {
    match op
    case Facts(_) => true
    case BuildContext(r, workspace, manifest) => r !in w.requests && K.ShownNow(w.kb, workspace, manifest)
    case Record(i, d, r, cited, answer, candidates) =>
      && DeliveryRuns.Enabled(w.delivery, Decide(i, d))
      && r in w.requests && d.workspace == w.requests[r].workspace
      && Answers(d.action, answer) && K.ReferencesOk(Content(w, r, cited, answer), candidates)
    case Deliver(o) => !o.Decide? && DeliveryRuns.Enabled(w.delivery, o) && Linked(w, o)
  }

  ghost function Step(w: World, op: Op): World
    requires Enabled(w, op)
  {
    match op
    case Facts(change) => w.(kb := K.Apply(w.kb, change))
    case BuildContext(r, workspace, manifest) => w.(requests := w.requests[r := Request(workspace, manifest, w.kb)])
    case Record(i, d, r, cited, answer, _) =>
      w.(delivery := DeliveryRuns.Step(w.delivery, Decide(i, d)),
         contents := w.contents[i := Content(w, r, cited, answer)], asked := w.asked[i := r])
    case Deliver(o) => w.(delivery := DeliveryRuns.Step(w.delivery, o))
  }

  ghost predicate Runs(w: World, ops: seq<Op>)
    decreases |ops|
  {
    ops == [] || (Enabled(w, ops[0]) && Runs(Step(w, ops[0]), ops[1..]))
  }

  ghost function Final(w: World, ops: seq<Op>): World
    requires Runs(w, ops)
    decreases |ops|
  {
    if ops == [] then w else Final(Step(w, ops[0]), ops[1..])
  }

  ghost predicate Initial(w: World) {
    DeliveryRuns.Initial(w.delivery) && K.Tidy(w.kb) && w.requests == map[] && w.contents == map[] && w.asked == map[]
  }

  // ---------- the invariant ----------

  ghost predicate RequestOk(kb: K.Kb, r: Request) {
    K.Tidy(r.facts) && K.Grows(r.facts, kb) && K.ShownNow(r.facts, r.workspace, r.manifest)
  }

  /** What was recorded with a decision fits the decision and the request it answers. */
  ghost predicate ContentOk(w: World, i: nat)
    requires i in w.contents
  {
    && i in w.asked && w.asked[i] in w.requests
    && w.contents[i].workspace == w.requests[w.asked[i]].workspace
    && w.contents[i].manifest == w.requests[w.asked[i]].manifest
    && (exists candidates :: K.ReferencesOk(w.contents[i], candidates))
    && i in w.delivery.db.decisions
    && w.delivery.db.decisions[i].workspace == w.contents[i].workspace
    && Answers(w.delivery.db.decisions[i].action, w.contents[i].answer)
  }

  ghost predicate GroundInv(w: World) {
    && Inv(w.delivery) && K.Tidy(w.kb)
    && (forall r :: r in w.requests ==> RequestOk(w.kb, w.requests[r]))
    && w.contents.Keys == w.delivery.db.decisions.Keys
    && (forall i :: i in w.contents ==> ContentOk(w, i))
  }

  lemma FactsKeepGround(w: World, change: K.KbOp)
    requires GroundInv(w)
    ensures GroundInv(w.(kb := K.Apply(w.kb, change)))
  {
    hide Inv, K.Tidy, K.Grows, K.ShownNow, K.Apply, K.ReferencesOk, Answers;
    K.ApplyKeepsTidy(w.kb, change);
    forall r | r in w.requests ensures RequestOk(K.Apply(w.kb, change), w.requests[r]) {
      K.GrowsTrans(w.requests[r].facts, w.kb, K.Apply(w.kb, change));
    }
    var w' := w.(kb := K.Apply(w.kb, change));
    forall i | i in w'.contents ensures ContentOk(w', i) { assert ContentOk(w, i); }
  }

  lemma ContextKeepsGround(w: World, r: nat, workspace: nat, manifest: seq<K.Shown>)
    requires GroundInv(w) && r !in w.requests && K.ShownNow(w.kb, workspace, manifest)
    ensures GroundInv(w.(requests := w.requests[r := Request(workspace, manifest, w.kb)]))
  {
    K.GrowsRefl(w.kb);
    hide Inv, K.Tidy, K.Grows, K.ShownNow, K.ReferencesOk, Answers;
    var w' := w.(requests := w.requests[r := Request(workspace, manifest, w.kb)]);
    forall i | i in w'.contents ensures ContentOk(w', i) { assert ContentOk(w, i); }
  }

  /** The new decision fits what was recorded with it. */
  lemma RecordedIsOk(w: World, op: Op)
    requires Enabled(w, op) && op.Record?
    ensures ContentOk(Step(w, op), op.inbound)
    ensures Step(w, op).contents.Keys == w.contents.Keys + {op.inbound}
    ensures Step(w, op).delivery.db.decisions == w.delivery.db.decisions[op.inbound := op.decision]
  {
    hide K.ReferencesOk, FreshDecision;
    assert K.ReferencesOk(Step(w, op).contents[op.inbound], op.candidates);
  }

  lemma OthersStayOk(w: World, op: Op, j: nat)
    requires Enabled(w, op) && op.Record? && j in w.contents && j != op.inbound && ContentOk(w, j)
    ensures ContentOk(Step(w, op), j)
  {
    hide K.ReferencesOk, FreshDecision, Answers;
  }

  lemma RecordKeepsRest(w: World, op: Op)
    requires Enabled(w, op) && op.Record? && Inv(w.delivery)
    ensures Inv(Step(w, op).delivery) && Step(w, op).kb == w.kb && Step(w, op).requests == w.requests
  {
    hide Inv, DeliveryRuns.Step, DeliveryRuns.Enabled;
    StepKeepsInv(w.delivery, Decide(op.inbound, op.decision));
  }

  lemma RecordKeepsGround(w: World, op: Op)
    requires GroundInv(w) && Enabled(w, op) && op.Record?
    ensures GroundInv(Step(w, op))
  {
    hide Inv, K.Tidy, RequestOk, ContentOk, Step, Enabled;
    RecordedIsOk(w, op);
    RecordKeepsRest(w, op);
    forall j | j in Step(w, op).contents ensures ContentOk(Step(w, op), j) {
      if j != op.inbound { OthersStayOk(w, op, j); }
    }
  }

  lemma DecisionsPersist(w: DeliveryRuns.World, o: DeliveryRuns.Op)
    requires Inv(w) && DeliveryRuns.Enabled(w, o) && !o.Decide?
    ensures DeliveryRuns.Step(w, o).db.decisions.Keys == w.db.decisions.Keys
    ensures Extends(w.db, DeliveryRuns.Step(w, o).db)
  {
    R.StepExtends(w, o);
    if o.DoPrepare? && Prepare(w.db, o.key, o.now, o.gate).Effect? {
      R.RowsOfInv(w);
      PrepareEffect(w.db, o.key, o.now, o.gate);
      hide Inv, Prepare, RowsOk, ReservationsOk, Extends, SendVerdict, ScheduledOutcome;
    } else {
      hide Inv, Extends, DeliveryRuns.Step, DeliveryRuns.Enabled;
      ModesAndDecisionsStay(w, o);
    }
  }

  lemma DeliverKeepsGround(w: World, o: DeliveryRuns.Op)
    requires GroundInv(w) && !o.Decide? && DeliveryRuns.Enabled(w.delivery, o)
    ensures GroundInv(w.(delivery := DeliveryRuns.Step(w.delivery, o)))
  {
    hide Inv, K.Tidy, K.ReferencesOk, Answers, RequestOk, DeliveryRuns.Step, DeliveryRuns.Enabled;
    StepKeepsInv(w.delivery, o);
    DecisionsPersist(w.delivery, o);
    var w' := w.(delivery := DeliveryRuns.Step(w.delivery, o));
    forall i | i in w'.contents ensures ContentOk(w', i) { assert ContentOk(w, i); }
  }

  lemma StepKeepsGround(w: World, op: Op)
    requires GroundInv(w) && Enabled(w, op)
    ensures GroundInv(Step(w, op))
  {
    hide GroundInv, DeliveryRuns.Step, DeliveryRuns.Enabled, K.Apply, K.ShownNow, K.ReferencesOk;
    match op
    case Facts(change) => FactsKeepGround(w, change);
    case BuildContext(r, workspace, manifest) => ContextKeepsGround(w, r, workspace, manifest);
    case Record(_, _, _, _, _, _) => RecordKeepsGround(w, op);
    case Deliver(o) => DeliverKeepsGround(w, o);
  }

  lemma {:induction false} RunKeepsGround(w: World, ops: seq<Op>)
    requires GroundInv(w) && Runs(w, ops)
    ensures GroundInv(Final(w, ops))
    decreases |ops|
  {
    hide GroundInv, Enabled, Step;
    if ops != [] {
      StepKeepsGround(w, ops[0]);
      RunKeepsGround(Step(w, ops[0]), ops[1..]);
    }
  }

  lemma InitialGround(w: World)
    requires Initial(w)
    ensures GroundInv(w)
  {
    hide Inv, K.Tidy;
    InitialInv(w.delivery);
  }

  // ---------- replies leave grounded ----------

  lemma LeavingIsLinked(w: World, p: nat, key: Key, now: int, gate: SendChecks)
    requires RowsOk(w.delivery.db) && ReservationsOk(w.delivery.db) && key.Auto?
    requires Prepare(w.delivery.db, key, now, gate).Effect? && Linked(w, DoPrepare(p, key, now, gate))
    ensures key.inbound in w.delivery.db.decisions && KindAllowed(w.delivery.db.decisions[key.inbound].action, key.kind)
    ensures FactsGate(w, key.inbound)
  {
    PrepareEffect(w.delivery.db, key, now, gate);
    hide Prepare, RowsOk, ReservationsOk, RateClear, FactsGate, ProposalSent;
    AllowedIsReserved(w.delivery.db, key.kind, key.inbound, now, gate);
    assert PolicyClear(w.delivery.db.decisions[key.inbound], gate.policy);
  }

  /** Every revision that the decision cites is grounded: the one live revision of an active fact of the workspace, now
      and when the model saw it, with the text the model saw. A reply cites at least one, and a redirect names a
      candidate and cites nothing. */
  ghost predicate GroundedNow(w: World, i: nat) {
    && i in w.contents && i in w.asked && w.asked[i] in w.requests && i in w.delivery.db.decisions
    && var d := w.contents[i];
       && (w.delivery.db.decisions[i].action == Reply ==> d.cited != [])
       && (w.delivery.db.decisions[i].action == RedirectProposal ==>
             d.answer.Redirect? && d.answer.candidate.Some? && d.cited == [])
       && d.manifest == w.requests[w.asked[i]].manifest
       && forall c :: 0 <= c < |d.cited| ==> K.Grounded(w.requests[w.asked[i]].facts, w.kb, d, d.cited[c])
  }

  lemma ClearGateGrounds(w: World, ops: seq<Op>, i: nat)
    requires Initial(w) && Runs(w, ops) && FactsGate(Final(w, ops), i)
    ensures GroundedNow(Final(w, ops), i)
  {
    InitialGround(w);
    RunKeepsGround(w, ops);
    ClearGateGroundsNow(Final(w, ops), i);
    hide *;
  }

  lemma ClearGateGroundsNow(end: World, i: nat)
    requires GroundInv(end) && FactsGate(end, i)
    ensures GroundedNow(end, i)
  {
    hide Inv, K.Tidy, K.Grows, K.ShownNow, K.FactsClear, K.Grounded, K.ReferencesOk;
    assert ContentOk(end, i) && RequestOk(end.kb, end.requests[end.asked[i]]);
    var d := end.contents[i];
    assert d.answer.Reply? ==> d.cited != [] by { ClearCites(end.kb, d); }
    RedirectsName(d);
    forall c | 0 <= c < |d.cited| ensures K.Grounded(end.requests[end.asked[i]].facts, end.kb, d, d.cited[c]) {
      K.ClearIsGrounded(end.requests[end.asked[i]].facts, end.kb, d, c);
    }
  }

  /** Whenever an automatic message leaves the queue, in any run, its decision is grounded. */
  lemma RepliesLeaveGrounded(w: World, ops: seq<Op>, p: nat, key: Key, now: int, gate: SendChecks)
    requires Initial(w) && Runs(w, ops) && key.Auto?
    requires Enabled(Final(w, ops), Deliver(DoPrepare(p, key, now, gate)))
    requires Prepare(Final(w, ops).delivery.db, key, now, gate).Effect?
    ensures GroundedNow(Final(w, ops), key.inbound)
    ensures key.kind == AutomaticReply ==> Final(w, ops).contents[key.inbound].cited != []
  {
    InitialGround(w);
    RunKeepsGround(w, ops);
    var end := Final(w, ops);
    R.RowsOfInv(end.delivery);
    hide Runs, Final, Prepare, Inv, RowsOk, ReservationsOk, K.Tidy, K.FactsClear, K.Grounded, DeliveryRuns.Enabled,
         FactsGate;
    LeavingIsLinked(end, p, key, now, gate);
    ClearGateGrounds(w, ops, key.inbound);
  }

  /** And it is grounded already when its first message is queued. */
  lemma RepliesAreQueuedGrounded(w: World, ops: seq<Op>, i: nat, now: int, checks: AuthorizeChecks)
    requires Initial(w) && Runs(w, ops)
    requires Enabled(Final(w, ops), Deliver(DoAuthorizeReply(i, now, checks)))
    requires var r := AuthorizeReply(Final(w, ops).delivery.db, i, now, checks);
             r.Some? && r.value.messages != Final(w, ops).delivery.db.messages
    ensures GroundedNow(Final(w, ops), i)
  {
    QueuesOnlyUnderPolicy(Final(w, ops).delivery.db, i, now, checks);
    ClearGateGrounds(w, ops, i);
  }

  lemma QueuesOnlyUnderPolicy(db: Db, i: nat, now: int, checks: AuthorizeChecks)
    requires AuthorizeReply(db, i, now, checks).Some?
    requires AuthorizeReply(db, i, now, checks).value.messages != db.messages
    ensures checks.policy
  {
  }

  /** The same for an acknowledgement. */
  lemma AcksAreQueuedGrounded(w: World, ops: seq<Op>, i: nat, now: int, policy: bool, address: string)
    requires Initial(w) && Runs(w, ops)
    requires Enabled(Final(w, ops), Deliver(DoAuthorizeAck(i, now, policy, address)))
    requires var r := AuthorizeAck(Final(w, ops).delivery.db, i, now, policy, address);
             r.Some? && r.value.messages != Final(w, ops).delivery.db.messages
    ensures GroundedNow(Final(w, ops), i)
  {
    AcknowledgesOnlyUnderPolicy(Final(w, ops).delivery.db, i, now, policy, address);
    ClearGateGrounds(w, ops, i);
  }

  lemma AcknowledgesOnlyUnderPolicy(db: Db, i: nat, now: int, policy: bool, address: string)
    requires AuthorizeAck(db, i, now, policy, address).Some?
    requires AuthorizeAck(db, i, now, policy, address).value.messages != db.messages
    ensures policy
  {
  }

  /** Only positive policy verdicts are tied to the facts: of the decision that is authorised, acknowledged or sent. */
  lemma TiesOnlyPolicies(w: World, o: DeliveryRuns.Op)
    ensures !o.DoAuthorizeReply? && !o.DoAuthorizeAck? && !(o.DoPrepare? && o.key.Auto?) ==> Linked(w, o)
    ensures o.DoAuthorizeReply? ==> (Linked(w, o) <==> !o.checks.policy || FactsGate(w, o.inbound))
    ensures o.DoAuthorizeAck? ==> (Linked(w, o) <==> !o.policy || FactsGate(w, o.inbound))
    ensures o.DoPrepare? && o.key.Auto? ==> (Linked(w, o) <==> !o.gate.policy || FactsGate(w, o.key.inbound))
  {
  }

  lemma RedirectsName(d: K.Decision)
    requires exists candidates :: K.ReferencesOk(d, candidates)
    ensures d.answer.Redirect? ==> d.answer.candidate.Some? && d.cited == []
  {
  }

  lemma ClearCites(kb: K.Kb, d: K.Decision)
    requires K.FactsClear(kb, d)
    ensures d.answer.Reply? ==> d.cited != []
  {
  }

  /** In every run the facts gate of a recorded decision is clear if and only if none of its citations was superseded
      since the model saw it and all their facts are still active. */
  lemma FactsGateIsExact(w: World, ops: seq<Op>, i: nat)
    requires Initial(w) && Runs(w, ops) && i in Final(w, ops).delivery.db.decisions
    ensures var end := Final(w, ops);
            && i in end.contents
            && (FactsGate(end, i) <==>
                  forall c :: 0 <= c < |end.contents[i].cited| ==> K.StillGood(end.kb, end.contents[i].cited[c]))
  {
    InitialGround(w);
    RunKeepsGround(w, ops);
    var end := Final(w, ops);
    hide Runs, Final, Inv, K.Tidy, K.Grows, K.ShownNow, K.FactsClear, K.ReferencesOk, K.StillGood;
    assert ContentOk(end, i) && RequestOk(end.kb, end.requests[end.asked[i]]);
    var candidates :| K.ReferencesOk(end.contents[i], candidates);
    K.GateIsExact(end.requests[end.asked[i]].facts, end.kb, end.contents[i], candidates);
  }
}
