/**
 What the operations on facts leave in the rows, and what the facts gate asks of them.
 */
module KnowledgeRows {
  import opened Common
  import opened Knowledge

  // ---------- creating ----------

  /** The fact of the workspace with the title: the first one, or a new one. */
  predicate IsFactOf(kb: Kb, workspace: nat, title: string, f: nat) {
    && f <= |kb.facts|
    && (forall g :: 0 <= g < f ==> kb.facts[g].workspace != workspace || kb.facts[g].title != title)
    && (f < |kb.facts| ==> kb.facts[f].workspace == workspace && kb.facts[f].title == title)
  }

  /** The highest version among the revisions of the fact, 0 when it has none. */
  predicate IsTop(rs: seq<Revision>, fact: nat, v: nat) {
    && (forall i :: 0 <= i < |rs| && rs[i].fact == fact ==> rs[i].version <= v)
    && (v == 0 || exists i :: 0 <= i < |rs| && rs[i].fact == fact && rs[i].version == v)
  }

  lemma {:induction false} LatestIsTop(rs: seq<Revision>, fact: nat)
    ensures IsTop(rs, fact, LatestVersion(rs, fact))
  {
    if rs != [] {
      LatestIsTop(rs[..|rs| - 1], fact);
      var n, v := |rs| - 1, LatestVersion(rs, fact);
      if v != 0 && !(rs[n].fact == fact && rs[n].version == v) {
        var i :| 0 <= i < n && rs[..n][i].fact == fact && rs[..n][i].version == v;
        assert rs[i].fact == fact && rs[i].version == v;
      }
    }
  }

  lemma {:induction false} FoundIsFactOf(kb: Kb, workspace: nat, title: string)
    ensures IsFactOf(kb, workspace, title, FindFact(kb.facts, workspace, title))
    decreases |kb.facts|
  {
    if kb.facts != [] && !(kb.facts[0].workspace == workspace && kb.facts[0].title == title) {
      var rest := kb.(facts := kb.facts[1..]);
      FoundIsFactOf(rest, workspace, title);
      assert forall g :: 0 < g < |kb.facts| ==> kb.facts[g] == rest.facts[g - 1];
    }
  }

  /** An empty title or text is refused; else the next version of the fact is appended, approved by nobody, and the fact
      is there and active if it is new. */
  lemma CreatesExactly(kb: Kb, workspace: nat, title: string, text: string)
    ensures title == "" || text == "" ==> Create(kb, workspace, title, text) == kb
    ensures title != "" && text != "" ==>
              var after := Create(kb, workspace, title, text);
              && |after.revisions| == |kb.revisions| + 1 && after.revisions[..|kb.revisions|] == kb.revisions
              && var r := after.revisions[|kb.revisions|];
                 && IsFactOf(kb, workspace, title, r.fact)
                 && after.facts == (if r.fact == |kb.facts| then kb.facts + [Fact(workspace, title, true)]
                                    else kb.facts)
                 && r.version > 0 && IsTop(kb.revisions, r.fact, r.version - 1)
                 && r == Revision(r.fact, r.version, text, None, None)
  {
    FoundIsFactOf(kb, workspace, title);
    LatestIsTop(kb.revisions, FindFact(kb.facts, workspace, title));
    hide FindFact, LatestVersion, IsTop, IsFactOf;
  }

  // ---------- approving ----------

  /** A first approval stamps the revision and supersedes every other approved revision of its fact that nothing has
      superseded; a repeated one and an unknown revision change nothing. */
  lemma ApprovesExactly(kb: Kb, r: nat, now: int)
    ensures r >= |kb.revisions| || kb.revisions[r].approvedAt != None ==> Approve(kb, r, now) == kb
    ensures r < |kb.revisions| && kb.revisions[r].approvedAt == None ==>
              var after := Approve(kb, r, now);
              && after.facts == kb.facts && |after.revisions| == |kb.revisions|
              && forall i :: 0 <= i < |kb.revisions| ==>
                   var row := kb.revisions[i];
                   after.revisions[i]
                   == if i == r then Revision(row.fact, row.version, row.text, Some(now), row.supersededAt)
                      else if row.fact == kb.revisions[r].fact && row.approvedAt.Some? && row.supersededAt == None then
                        Revision(row.fact, row.version, row.text, row.approvedAt, Some(now))
                      else row
  {
  }

  lemma SwitchesExactly(kb: Kb, f: nat, active: bool)
    ensures SetActive(kb, f, active)
            == if f < |kb.facts|
               then Kb(kb.facts[f := Fact(kb.facts[f].workspace, kb.facts[f].title, active)], kb.revisions) else kb
  {
  }

  // ---------- the gate ----------

  /** Approved, superseded by nothing, and of an active fact of the workspace. */
  predicate Usable(kb: Kb, workspace: nat, r: nat) {
    && r < |kb.revisions| && kb.revisions[r].approvedAt.Some? && kb.revisions[r].supersededAt == None
    && kb.revisions[r].fact < |kb.facts|
    && kb.facts[kb.revisions[r].fact].active && kb.facts[kb.revisions[r].fact].workspace == workspace
  }

  lemma QuotableExactly(kb: Kb, workspace: nat, r: nat)
    ensures Quotable(kb, workspace, r) <==> Usable(kb, workspace, r)
  {
  }

  /** The gate is clear exactly when a reply cites something, and each citation is usable, was shown, and reads in every
      place it was shown as it reads now, in the same version. */
  lemma ClearExactly(kb: Kb, d: Decision)
    ensures FactsClear(kb, d) <==>
              && (d.answer.Reply? ==> |d.cited| > 0)
              && forall c :: 0 <= c < |d.cited| ==>
                   && Usable(kb, d.workspace, d.cited[c])
                   && (exists i :: 0 <= i < |d.manifest| && d.manifest[i].revision == d.cited[c])
                   && forall i :: 0 <= i < |d.manifest| && d.manifest[i].revision == d.cited[c] ==>
                        d.manifest[i].version == kb.revisions[d.cited[c]].version
                        && d.manifest[i].text == kb.revisions[d.cited[c]].text
  {
    if FactsClear(kb, d) {
      forall c | 0 <= c < |d.cited| ensures CitationClear(kb, d, d.cited[c]) {}
    }
  }

  predicate WasShown(manifest: seq<Shown>, r: nat) {
    exists i :: 0 <= i < |manifest| && manifest[i].revision == r
  }

  lemma ShownExactly(manifest: seq<Shown>, r: nat)
    ensures InManifest(manifest, r) <==> WasShown(manifest, r)
  {
  }

  /** An answer is accepted exactly when its citations are distinct and were shown, a reply has a body and cites
      something, and a redirect names one of the candidates and cites nothing. */
  lemma ReferencesExactly(d: Decision, candidates: set<nat>)
    ensures ReferencesOk(d, candidates) <==>
              && (forall i, j :: 0 <= i < j < |d.cited| ==> d.cited[i] != d.cited[j])
              && (forall c :: 0 <= c < |d.cited| ==> WasShown(d.manifest, d.cited[c]))
              && (d.answer.Reply? ==> |d.cited| > 0 && |d.answer.body| > 0)
              && (d.answer.Redirect? ==>
                    d.answer.candidate.Some? && d.answer.candidate.value in candidates && |d.cited| == 0)
  {
    forall c | 0 <= c < |d.cited| ensures InManifest(d.manifest, d.cited[c]) <==> WasShown(d.manifest, d.cited[c]) {
      ShownExactly(d.manifest, d.cited[c]);
    }
    hide InManifest, WasShown;
  }
}
