/**
 The versioned memories of one contact (`refresh_contact_memory` in `automation/memory.py`) and the as-of read of a
 past decision (`_memory_blocks` in `automation/context.py`).

 A refresh stamps twice: the old version is superseded at one clock reading and the new one created at a later one.
 */
module MemoryStore {
  import opened Common
  import opened Memory

  predicate Active(m: Record) {
    m.supersededAt.None?
  }

  predicate VisibleAt(m: Record, t: int) {
    m.createdAt <= t && (m.supersededAt.Some? ==> m.supersededAt.value > t)
  }

  /** The newest version that `pick` keeps among the first `n` rows. */
  function BestOf(ms: seq<Record>, n: nat, pick: Record -> bool): (r: Option<nat>)
    requires n <= |ms|
    ensures r.Some? ==> r.value < n && pick(ms[r.value])
    ensures forall i :: 0 <= i < n && pick(ms[i]) ==> r.Some? && ms[i].version <= ms[r.value].version
  {
    if n == 0 then None
    else
      var before := BestOf(ms, n - 1, pick);
      if pick(ms[n - 1]) && (before.None? || ms[n - 1].version > ms[before.value].version) then Some(n - 1) else before
  }

  /** `order_by("-version").first()` over the rows that `pick` keeps. */
  function Best(ms: seq<Record>, pick: Record -> bool): (r: Option<nat>)
    ensures r.Some? ==> r.value < |ms| && pick(ms[r.value])
    ensures forall i :: 0 <= i < |ms| && pick(ms[i]) ==> r.Some? && ms[i].version <= ms[r.value].version
  {
    BestOf(ms, |ms|, pick)
  }

  function ActiveMemory(ms: seq<Record>): Option<nat> {
    Best(ms, Active)
  }

  function AsOf(ms: seq<Record>, t: int): Option<nat> {
    Best(ms, m => VisibleAt(m, t))
  }

  function LatestVersion(ms: seq<Record>): (v: nat)
    ensures forall i :: 0 <= i < |ms| ==> ms[i].version <= v
  {
    if ms == [] then 0
    else
      var before := LatestVersion(ms[..|ms| - 1]);
      if ms[|ms| - 1].version > before then ms[|ms| - 1].version else before
  }

  function Supersede(ms: seq<Record>, a: Option<nat>, now: int): (r: seq<Record>)
    requires a.Some? ==> a.value < |ms|
    ensures |r| == |ms|
  {
    if a.Some? then ms[a.value := ms[a.value].(supersededAt := Some(now))] else ms
  }

  /** `refresh_contact_memory`; `built` is what the messages amount to now. */
  function Refresh(ms: seq<Record>, built: Option<Built>, now: int, created: int): seq<Record> {
    var a := ActiveMemory(ms);
    match built
    case None => Supersede(ms, a, now)
    case Some(b) =>
      if a.Some? && Holds(ms[a.value], b) then ms
      else Supersede(ms, a, now) + [Record(LatestVersion(ms) + 1, b.summary, b.ids, b.hash, created, None)]
  }

  datatype RefreshOp = RefreshOp(built: Option<Built>, now: int, created: int)

  function RefreshAll(ms: seq<Record>, ops: seq<RefreshOp>): seq<Record>
    decreases |ops|
  {
    if ops == [] then ms
    else RefreshAll(Refresh(ms, ops[0].built, ops[0].now, ops[0].created), ops[1..])
  }

  // ---------- versions ----------

  ghost predicate Versioned(ms: seq<Record>) {
    && (forall i, j :: 0 <= i < j < |ms| ==> ms[i].version < ms[j].version)
    && (forall i, j :: 0 <= i < |ms| && 0 <= j < |ms| && Active(ms[i]) && Active(ms[j]) ==> i == j)
  }

  lemma RefreshKeepsVersioned(ms: seq<Record>, built: Option<Built>, now: int, created: int)
    requires Versioned(ms)
    ensures Versioned(Refresh(ms, built, now, created))
  {
    var a := ActiveMemory(ms);
    if built.Some? && !(a.Some? && Holds(ms[a.value], built.value)) {
      var old' := Supersede(ms, a, now);
      assert forall i :: 0 <= i < |ms| ==> old'[i].version == ms[i].version && !Active(old'[i]);
    }
  }

  /** Over every run of refreshes versions strictly increase and at most one memory is active. */
  lemma {:induction false} VersionsIncrease(ms: seq<Record>, ops: seq<RefreshOp>)
    requires Versioned(ms)
    ensures Versioned(RefreshAll(ms, ops))
    decreases |ops|
  {
    if ops != [] {
      RefreshKeepsVersioned(ms, ops[0].built, ops[0].now, ops[0].created);
      VersionsIncrease(Refresh(ms, ops[0].built, ops[0].now, ops[0].created), ops[1..]);
    }
  }

  // ---------- as-of reads ----------

  ghost predicate StampsUpTo(ms: seq<Record>, t: int) {
    forall i :: 0 <= i < |ms| ==>
      ms[i].createdAt <= t && (ms[i].supersededAt.Some? ==> ms[i].supersededAt.value <= t)
  }

  lemma {:induction false} BestIgnoresUnpicked(ms: seq<Record>, ms': seq<Record>, n: nat, pick: Record -> bool,
                                               pick': Record -> bool)
    requires |ms| <= |ms'| && n <= |ms'|
    requires forall i :: 0 <= i < |ms| ==> ms[i].version == ms'[i].version && pick(ms[i]) == pick'(ms'[i])
    requires forall i :: |ms| <= i < |ms'| ==> !pick'(ms'[i])
    ensures BestOf(ms', n, pick') == BestOf(ms, if n <= |ms| then n else |ms|, pick)
    decreases n
  {
    if n > 0 { BestIgnoresUnpicked(ms, ms', n - 1, pick, pick'); }
  }

  lemma BestLooksOnlyAtPicked(ms: seq<Record>, ms': seq<Record>, pick: Record -> bool, pick': Record -> bool)
    requires |ms| <= |ms'|
    requires forall i :: 0 <= i < |ms| ==> ms[i].version == ms'[i].version && pick(ms[i]) == pick'(ms'[i])
    requires forall i :: |ms| <= i < |ms'| ==> !pick'(ms'[i])
    ensures Best(ms', pick') == Best(ms, pick)
  {
    BestIgnoresUnpicked(ms, ms', |ms'|, pick, pick');
  }

  lemma LaterRefreshKeepsAsOf(ms: seq<Record>, built: Option<Built>, now: int, created: int, t: int)
    requires now > t && created > t
    ensures var ms' := Refresh(ms, built, now, created);
            && AsOf(ms', t) == AsOf(ms, t)
            && |ms| <= |ms'|
            && forall i :: 0 <= i < |ms| ==> ms'[i].(supersededAt := None) == ms[i].(supersededAt := None)
  {
    var pick := m => VisibleAt(m, t);
    var ms' := Refresh(ms, built, now, created);
    var a := ActiveMemory(ms);
    forall i | 0 <= i < |ms| ensures ms[i].version == ms'[i].version && pick(ms[i]) == pick(ms'[i]) {
      if a.Some? && i == a.value { assert Active(ms[i]); }
    }
    BestLooksOnlyAtPicked(ms, ms', pick, pick);
  }

  lemma {:induction false} LaterRefreshesKeepAsOf(ms: seq<Record>, ops: seq<RefreshOp>, t: int)
    requires forall k :: 0 <= k < |ops| ==> ops[k].now > t && ops[k].created > t
    ensures AsOf(RefreshAll(ms, ops), t) == AsOf(ms, t)
    ensures |ms| <= |RefreshAll(ms, ops)|
    ensures forall i :: 0 <= i < |ms| ==>
              RefreshAll(ms, ops)[i].(supersededAt := None) == ms[i].(supersededAt := None)
    decreases |ops|
  {
    if ops != [] {
      var next := Refresh(ms, ops[0].built, ops[0].now, ops[0].created);
      LaterRefreshKeepsAsOf(ms, ops[0].built, ops[0].now, ops[0].created, t);
      LaterRefreshesKeepAsOf(next, ops[1..], t);
      assert forall i :: 0 <= i < |ms| ==> next[i].(supersededAt := None) == ms[i].(supersededAt := None);
    }
  }

  /** After any later refreshes the as-of read for instant `t` returns exactly the memory that was active at `t`,
      content and all; when none was active it returns none. */
  lemma AsOfAgreesWithHistory(ms: seq<Record>, ops: seq<RefreshOp>, t: int)
    requires StampsUpTo(ms, t)
    requires forall k :: 0 <= k < |ops| ==> ops[k].now > t && ops[k].created > t
    ensures var later := RefreshAll(ms, ops);
            && AsOf(later, t) == ActiveMemory(ms)
            && (ActiveMemory(ms).Some? ==>
                  ActiveMemory(ms).value < |later|
                  && later[ActiveMemory(ms).value].(supersededAt := None) == ms[ActiveMemory(ms).value])
  {
    LaterRefreshesKeepAsOf(ms, ops, t);
    BestLooksOnlyAtPicked(ms, ms, Active, m => VisibleAt(m, t));
  }

  /** An instant between the two clock readings of a refresh sees neither version. */
  lemma InstantInsideARefreshSeesNothing(ms: seq<Record>, built: Option<Built>, now: int, created: int, t: int)
    requires Versioned(ms) && StampsUpTo(ms, now) && now <= t < created
    requires ActiveMemory(ms).Some? && built.Some? && !Holds(ms[ActiveMemory(ms).value], built.value)
    ensures AsOf(Refresh(ms, built, now, created), t).None?
  {
    var ms' := Refresh(ms, built, now, created);
    var a := ActiveMemory(ms).value;
    forall i | 0 <= i < |ms'| ensures !VisibleAt(ms'[i], t) {
      if i < |ms| && i != a { assert !Active(ms[i]); }
    }
  }

  // ---------- refresh and verify ----------

  /** After a refresh the active memory, if any, verifies against the messages it was built from; and a second
      refresh over the same messages writes nothing. */
  lemma RefreshedMemoryVerifies(f: Format, mail: Mail, contact: nat, ms: seq<Record>, now: int, created: int,
                                now': int, created': int)
    requires Versioned(ms)
    ensures var ms' := Refresh(ms, Build(f, mail, contact), now, created);
            var a := ActiveMemory(ms');
            && (a.Some? <==> Build(f, mail, contact).Some?)
            && (a.Some? ==> Verified(f, mail, contact, ms'[a.value]) == Some(ms'[a.value].summary)
                            && f.size(ms'[a.value].summary) <= MAX_CHARACTERS)
            && Refresh(ms', Build(f, mail, contact), now', created') == ms'
  {
    hide Build, Verified;
    var built := Build(f, mail, contact);
    var ms' := Refresh(ms, built, now, created);
    ActiveAfterRefresh(ms, built, now, created);
    var a := ActiveMemory(ms');
    if a.Some? { VerifiesExactlyWhileUnchanged(f, mail, mail, contact, ms'[a.value]); }
  }

  lemma ActiveAfterRefresh(ms: seq<Record>, built: Option<Built>, now: int, created: int)
    requires Versioned(ms)
    ensures var ms' := Refresh(ms, built, now, created);
            var a := ActiveMemory(ms');
            (a.Some? <==> built.Some?) && (a.Some? ==> Holds(ms'[a.value], built.value))
  {
    RefreshKeepsVersioned(ms, built, now, created);
    var ms' := Refresh(ms, built, now, created);
    var a := ActiveMemory(ms);
    if built.Some? && !(a.Some? && Holds(ms[a.value], built.value)) {
      assert Active(ms'[|ms|]);
    }
  }

  // ---------- the service in its own, imperative form ----------

  class MemoryShelf {
    var memories: seq<Record>

    constructor ()
      ensures memories == []
    {
      memories := [];
    }

    method RefreshContactMemory(f: Format, mail: Mail, contact: nat, now: int, created: int)
      returns (active: Option<Record>)
      modifies this
      ensures memories == Refresh(old(memories), Build(f, mail, contact), now, created)
      ensures active.Some? <==> Build(f, mail, contact).Some?
      ensures active.Some? ==>
                active.value in memories && Active(active.value) && Holds(active.value, Build(f, mail, contact).value)
      ensures active.Some? ==>
                forall i :: 0 <= i < |active.value.sourceIds| ==> IsKey(mail, contact, active.value.sourceIds[i])
    {
      hide Sources, SummaryFrom, Included, HashOf, IdsOf, BestOf, LatestVersion, EntriesOf, IsKey;
      forall i | Build(f, mail, contact).Some? && 0 <= i < |Build(f, mail, contact).value.ids|
        ensures IsKey(mail, contact, Build(f, mail, contact).value.ids[i])
      {
        BuiltNamesRows(f, mail, contact, i);
      }
      var sources := Sources(mail, contact);
      var a := ActiveMemory(memories);
      var summary := SummaryForSources(f, sources);
      var includedIds := IdsOf(summary);
      var included := Included(sources, includedIds);
      if included == [] {
        if a.Some? { memories := memories[a.value := memories[a.value].(supersededAt := Some(now))]; }
        return None;
      }
      var digest := HashOf(summary, included);
      if a.Some? {
        var current := memories[a.value];
        if current.summary == summary && current.sourceIds == includedIds && current.hash == digest {
          return Some(current);
        }
      }
      var latest := LatestVersion(memories);
      if a.Some? { memories := memories[a.value := memories[a.value].(supersededAt := Some(now))]; }
      var memory := Record(latest + 1, summary, includedIds, digest, created, None);
      memories := memories + [memory];
      active := Some(memory);
    }
  }
}
