/**
 Approved facts and the grounding of automatic replies (`automation/services.py`, `automation/retrieval.py`, and the
 gate `_selected_facts_error` of `automation/execution.py`).

 The digest of a text is the text itself: SHA-256 is taken to be injective.
 */
module Knowledge {
  import opened Common

  datatype Fact = Fact(workspace: nat, title: string, active: bool)

  datatype Revision = Revision(
    fact: nat,
    version: nat,
    text: string,
    approvedAt: Option<int>,
    supersededAt: Option<int>)

  datatype Kb = Kb(facts: seq<Fact>, revisions: seq<Revision>)

  predicate Live(r: Revision) {
    r.approvedAt.Some? && r.supersededAt.None?
  }

  // ---------- revisions ----------

  function FindFact(facts: seq<Fact>, workspace: nat, title: string): (f: nat)
    ensures f <= |facts|
    ensures f < |facts| ==> facts[f].workspace == workspace && facts[f].title == title
    ensures f == |facts| ==> forall i :: 0 <= i < |facts| ==> facts[i].workspace != workspace || facts[i].title != title
  {
    if facts == [] then 0
    else if facts[0].workspace == workspace && facts[0].title == title then 0
    else 1 + FindFact(facts[1..], workspace, title)
  }

  function LatestVersion(rs: seq<Revision>, fact: nat): (v: nat)
    ensures forall i :: 0 <= i < |rs| && rs[i].fact == fact ==> rs[i].version <= v
  {
    if rs == [] then 0
    else
      var before := LatestVersion(rs[..|rs| - 1], fact);
      var last := rs[|rs| - 1];
      if last.fact == fact && last.version > before then last.version else before
  }

  /** `create_knowledge_revision`, on stripped texts. */
  function Create(kb: Kb, workspace: nat, title: string, text: string): Kb {
    if title == "" || text == "" then kb
    else
      var f := FindFact(kb.facts, workspace, title);
      var facts := if f == |kb.facts| then kb.facts + [Fact(workspace, title, true)] else kb.facts;
      Kb(facts, kb.revisions + [Revision(f, LatestVersion(kb.revisions, f) + 1, text, None, None)])
  }

  /** The bulk update of an approval, then the approval itself. */
  function ApprovedRow(rs: seq<Revision>, r: nat, i: nat, now: int): Revision
    requires r < |rs| && i < |rs|
  {
    if i == r then rs[i].(approvedAt := Some(now))
    else if rs[i].fact == rs[r].fact && Live(rs[i]) then rs[i].(supersededAt := Some(now))
    else rs[i]
  }

  /** `approve_knowledge_revision`. */
  function Approve(kb: Kb, r: nat, now: int): Kb {
    if r >= |kb.revisions| || kb.revisions[r].approvedAt.Some? then kb
    else
      kb.(revisions := seq(|kb.revisions|, i requires 0 <= i < |kb.revisions| => ApprovedRow(kb.revisions, r, i, now)))
  }

  /** An administrator takes a fact out of use or back. */
  function SetActive(kb: Kb, f: nat, active: bool): Kb {
    if f >= |kb.facts| then kb else kb.(facts := kb.facts[f := kb.facts[f].(active := active)])
  }

  ghost predicate Tidy(kb: Kb) {
    && (forall i :: 0 <= i < |kb.revisions| ==> kb.revisions[i].fact < |kb.facts|)
    && (forall i :: 0 <= i < |kb.revisions| && kb.revisions[i].supersededAt.Some? ==> kb.revisions[i].approvedAt.Some?)
    && OneLive(kb) && DistinctVersions(kb)
  }

  /** At most one live revision per fact. */
  ghost predicate OneLive(kb: Kb) {
    forall i, j :: 0 <= i < j < |kb.revisions| && Live(kb.revisions[i]) && Live(kb.revisions[j]) ==>
                     kb.revisions[i].fact != kb.revisions[j].fact
  }

  ghost predicate DistinctVersions(kb: Kb) {
    forall i, j :: 0 <= i < j < |kb.revisions| && kb.revisions[i].fact == kb.revisions[j].fact ==>
                     kb.revisions[i].version < kb.revisions[j].version
  }

  // ---------- histories ----------

  datatype KbOp =
    | DoCreate(workspace: nat, title: string, text: string)
    | DoApprove(revision: nat, now: int)
    | DoSetActive(fact: nat, active: bool)

  function Apply(kb: Kb, op: KbOp): Kb {
    match op
    case DoCreate(workspace, title, text) => Create(kb, workspace, title, text)
    case DoApprove(r, now) => Approve(kb, r, now)
    case DoSetActive(f, active) => SetActive(kb, f, active)
  }

  function ApplyAll(kb: Kb, ops: seq<KbOp>): Kb
    decreases |ops|
  {
    if ops == [] then kb else ApplyAll(Apply(kb, ops[0]), ops[1..])
  }

  /** What no operation rewrites: a revision's fact, version and text, a fact's workspace, and that a revision once
      superseded never lives again. */
  ghost predicate Grows(kb: Kb, kb': Kb) {
    && |kb.facts| <= |kb'.facts| && |kb.revisions| <= |kb'.revisions|
    && (forall f :: 0 <= f < |kb.facts| ==> kb'.facts[f].workspace == kb.facts[f].workspace)
    && (forall i :: 0 <= i < |kb.revisions| ==>
          && kb'.revisions[i].fact == kb.revisions[i].fact
          && kb'.revisions[i].version == kb.revisions[i].version
          && kb'.revisions[i].text == kb.revisions[i].text
          && (kb.revisions[i].approvedAt.Some? ==> kb'.revisions[i].approvedAt == kb.revisions[i].approvedAt)
          && (kb.revisions[i].supersededAt.Some? ==> kb'.revisions[i].supersededAt == kb.revisions[i].supersededAt))
  }

  lemma CreateKeepsTidy(kb: Kb, workspace: nat, title: string, text: string)
    requires Tidy(kb)
    ensures Tidy(Create(kb, workspace, title, text)) && Grows(kb, Create(kb, workspace, title, text))
  {
  }

  lemma ApproveKeepsTidy(kb: Kb, r: nat, now: int)
    requires Tidy(kb)
    ensures Tidy(Approve(kb, r, now)) && Grows(kb, Approve(kb, r, now))
  {
  }

  lemma ApplyKeepsTidy(kb: Kb, op: KbOp)
    requires Tidy(kb)
    ensures Tidy(Apply(kb, op)) && Grows(kb, Apply(kb, op))
  {
    hide Create, Approve, SetActive, Tidy, Grows;
    match op
    case DoCreate(workspace, title, text) => CreateKeepsTidy(kb, workspace, title, text);
    case DoApprove(r, now) => ApproveKeepsTidy(kb, r, now);
    case DoSetActive(f, active) => SetActiveKeepsTidy(kb, f, active);
  }

  lemma SetActiveKeepsTidy(kb: Kb, f: nat, active: bool)
    requires Tidy(kb)
    ensures Tidy(SetActive(kb, f, active)) && Grows(kb, SetActive(kb, f, active))
  {
  }

  /** Approval keeps at most one live revision per fact, over every history. */
  lemma {:induction false} HistoryKeepsTidy(kb: Kb, ops: seq<KbOp>)
    requires Tidy(kb)
    ensures Tidy(ApplyAll(kb, ops)) && Grows(kb, ApplyAll(kb, ops))
    decreases |ops|
  {
    hide Tidy, Grows, Apply;
    if ops == [] {
      GrowsRefl(kb);
    } else {
      ApplyKeepsTidy(kb, ops[0]);
      HistoryKeepsTidy(Apply(kb, ops[0]), ops[1..]);
      GrowsTrans(kb, Apply(kb, ops[0]), ApplyAll(kb, ops));
    }
  }

  lemma GrowsRefl(kb: Kb)
    ensures Grows(kb, kb)
  {
  }

  lemma GrowsTrans(a: Kb, b: Kb, c: Kb)
    requires Grows(a, b) && Grows(b, c)
    ensures Grows(a, c)
  {
  }

  // ---------- what a request may quote ----------

  predicate Quotable(kb: Kb, workspace: nat, r: nat) {
    && r < |kb.revisions| && Live(kb.revisions[r]) && kb.revisions[r].fact < |kb.facts|
    && kb.facts[kb.revisions[r].fact].active && kb.facts[kb.revisions[r].fact].workspace == workspace
  }

  /** `approved_fact_revisions`: the loop keeps the first row of each fact. `rows` is the query's result, in its order;
      since a fact has one live revision the dictionary drops nothing. */
  method ApprovedFactRevisions(kb: Kb, workspace: nat, rows: seq<nat>) returns (latest: map<nat, nat>)
    requires Tidy(kb)
    requires forall i :: 0 <= i < |rows| ==> Quotable(kb, workspace, rows[i])
    ensures forall f :: f in latest ==>
              latest[f] in rows && Quotable(kb, workspace, latest[f]) && kb.revisions[latest[f]].fact == f
    ensures forall i :: 0 <= i < |rows| ==>
              && Quotable(kb, workspace, rows[i]) && kb.revisions[rows[i]].fact in latest
              && latest[kb.revisions[rows[i]].fact] == rows[i]
  {
    latest := map[];
    for n := 0 to |rows|
      invariant forall f :: f in latest ==>
        latest[f] in rows[..n] && Quotable(kb, workspace, latest[f]) && kb.revisions[latest[f]].fact == f
      invariant forall i :: 0 <= i < n ==>
        kb.revisions[rows[i]].fact in latest && latest[kb.revisions[rows[i]].fact] == rows[i]
    {
      assert rows[..n + 1] == rows[..n] + [rows[n]];
      var fact := kb.revisions[rows[n]].fact;
      if fact !in latest { latest := latest[fact := rows[n]]; }
    }
    assert rows[..|rows|] == rows;
  }

  // ---------- a decision and its citations ----------

  /** One fact of the context the model saw. */
  datatype Shown = Shown(revision: nat, version: nat, text: string)

  datatype Answer = Reply(body: string) | Redirect(candidate: Option<nat>) | Other

  datatype Decision = Decision(workspace: nat, manifest: seq<Shown>, cited: seq<nat>, answer: Answer)

  /** The facts of a context built now: some of the approved revisions. */
  ghost predicate ShownNow(kb: Kb, workspace: nat, manifest: seq<Shown>) {
    && (forall i :: 0 <= i < |manifest| ==>
          && Quotable(kb, workspace, manifest[i].revision)
          && manifest[i].version == kb.revisions[manifest[i].revision].version
          && manifest[i].text == kb.revisions[manifest[i].revision].text)
    && (forall i, j :: 0 <= i < j < |manifest| ==> manifest[i].revision != manifest[j].revision)
  }

  predicate InManifest(manifest: seq<Shown>, r: nat) {
    exists i :: 0 <= i < |manifest| && manifest[i].revision == r
  }

  /** `_validate_result_references`, on a stripped body. */
  predicate ReferencesOk(d: Decision, candidates: set<nat>) {
    && (d.answer.Redirect? ==> d.answer.candidate.Some? && d.answer.candidate.value in candidates && d.cited == [])
    && (forall i, j :: 0 <= i < j < |d.cited| ==> d.cited[i] != d.cited[j])
    && (forall i :: 0 <= i < |d.cited| ==> InManifest(d.manifest, d.cited[i]))
    && (d.answer.Reply? ==> d.cited != [] && d.answer.body != "")
  }

  /** `_selected_facts_error` finds nothing. */
  predicate FactsClear(kb: Kb, d: Decision) {
    && (d.answer.Reply? ==> d.cited != [])
    && (forall i :: 0 <= i < |d.cited| ==> CitationClear(kb, d, d.cited[i]))
  }

  predicate CitationClear(kb: Kb, d: Decision, r: nat) {
    && InManifest(d.manifest, r)
    && Quotable(kb, d.workspace, r)
    && forall i :: 0 <= i < |d.manifest| && d.manifest[i].revision == r ==>
         d.manifest[i].version == kb.revisions[r].version && d.manifest[i].text == kb.revisions[r].text
  }

  /** The revision is the one and only live revision of its fact. */
  ghost predicate OnlyLive(kb: Kb, r: nat) {
    && r < |kb.revisions| && Live(kb.revisions[r])
    && forall i :: 0 <= i < |kb.revisions| && i != r && Live(kb.revisions[i]) ==>
         kb.revisions[i].fact != kb.revisions[r].fact
  }

  /** A citation is the one live revision of an active fact of the workspace. It was in the context of the decision,
      and reads now as it read there and in the table of that time. */
  ghost predicate Grounded(was: Kb, now: Kb, d: Decision, r: nat) {
    && OnlyLive(now, r) && Quotable(now, d.workspace, r)
    && OnlyLive(was, r) && Quotable(was, d.workspace, r)
    && exists i :: 0 <= i < |d.manifest| && d.manifest[i].revision == r
                   && d.manifest[i].text == now.revisions[r].text == was.revisions[r].text
  }

  /** Grounding survives time: when the gate is clear, however the facts changed since the context was built, every
      citation is grounded. */
  lemma ClearIsGrounded(was: Kb, now: Kb, d: Decision, c: nat)
    requires Tidy(was) && Tidy(now) && Grows(was, now) && ShownNow(was, d.workspace, d.manifest)
    requires FactsClear(now, d) && c < |d.cited|
    ensures Grounded(was, now, d, d.cited[c])
  {
    var r := d.cited[c];
    assert CitationClear(now, d, r) && InManifest(d.manifest, r);
    var i :| 0 <= i < |d.manifest| && d.manifest[i].revision == r;
    assert Quotable(was, d.workspace, d.manifest[i].revision);
  }

  predicate StillGood(now: Kb, r: nat) {
    && r < |now.revisions| && now.revisions[r].supersededAt.None?
    && now.revisions[r].fact < |now.facts| && now.facts[now.revisions[r].fact].active
  }

  /** The gate is exact: a validated decision passes if and only if none of its citations was superseded since and
      all their facts are still active; nothing else can stop it, and nothing of this can be overlooked. */
  lemma GateIsExact(was: Kb, now: Kb, d: Decision, candidates: set<nat>)
    requires Grows(was, now) && ShownNow(was, d.workspace, d.manifest) && ReferencesOk(d, candidates)
    ensures FactsClear(now, d) <==> forall c :: 0 <= c < |d.cited| ==> StillGood(now, d.cited[c])
  {
    hide Grows, ShownNow, StillGood, CitationClear;
    forall c | 0 <= c < |d.cited| ensures CitationClear(now, d, d.cited[c]) <==> StillGood(now, d.cited[c]) {
      CitationExact(was, now, d, d.cited[c]);
    }
  }

  lemma CitationExact(was: Kb, now: Kb, d: Decision, r: nat)
    requires Grows(was, now) && ShownNow(was, d.workspace, d.manifest) && InManifest(d.manifest, r)
    ensures CitationClear(now, d, r) <==> StillGood(now, r)
  {
    var i :| 0 <= i < |d.manifest| && d.manifest[i].revision == r;
    assert Quotable(was, d.workspace, d.manifest[i].revision);
  }

  // ---------- the services in their own, imperative form ----------

  class KnowledgeBase {
    var facts: seq<Fact>
    var revisions: seq<Revision>

    function Rows(): Kb
      reads this
    {
      Kb(facts, revisions)
    }

    constructor ()
      ensures Rows() == Kb([], []) && Tidy(Rows())
    {
      facts, revisions := [], [];
    }

    method CreateKnowledgeRevision(workspace: nat, title: string, text: string) returns (created: Option<nat>)
      modifies this
      ensures Rows() == Create(old(Rows()), workspace, title, text)
      ensures created.Some? <==> title != "" && text != ""
      ensures created.Some? ==>
                created.value == |old(revisions)| < |revisions|
                && revisions[created.value].text == text && !Live(revisions[created.value])
      ensures old(Tidy(Rows())) ==> Tidy(Rows())
    {
      ghost var before := Rows();
      if title == "" || text == "" { return None; }
      if Tidy(before) { ApplyKeepsTidy(before, DoCreate(workspace, title, text)); }
      hide Tidy;
      var f := FindFact(facts, workspace, title);
      if f == |facts| { facts := facts + [Fact(workspace, title, true)]; }
      var version := LatestVersion(revisions, f) + 1;
      revisions := revisions + [Revision(f, version, text, None, None)];
      created := Some(|revisions| - 1);
    }

    method ApproveKnowledgeRevision(r: nat, now: int)
      requires r < |revisions|
      modifies this`revisions
      ensures Rows() == Approve(old(Rows()), r, now)
      ensures old(Tidy(Rows())) ==> Tidy(Rows()) && (old(revisions)[r].approvedAt.None? ==> OnlyLive(Rows(), r))
    {
      ghost var before := Rows();
      if revisions[r].approvedAt.Some? { return; }
      if Tidy(before) { ApplyKeepsTidy(before, DoApprove(r, now)); }
      var rows := revisions;
      revisions := seq(|rows|, i requires 0 <= i < |rows| =>
                     if rows[i].fact == rows[r].fact && Live(rows[i]) then rows[i].(supersededAt := Some(now))
                     else rows[i]);
      revisions := revisions[r := revisions[r].(approvedAt := Some(now))];
      assert revisions == Approve(before, r, now).revisions;
    }
  }
}
