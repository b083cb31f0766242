/**
 The memory read off the rows of messages: which messages are its sources, what is built from them, what a refresh
 writes, and what the two reads of the store return.
 */
module MemoryRows {
  import opened Common
  import opened History
  import opened Memory
  import S = MemoryStore

  // ---------- messages of a contact ----------

  function Both(mail: Mail, contact: nat): seq<Stamped<Source>> {
    InboundStream(mail, contact, |mail.inbound|) + OutboundStream(mail, contact, |mail.outbound|)
  }

  lemma {:induction false} InboundExactly(mail: Mail, contact: nat, n: nat, x: Stamped<Source>)
    requires n <= |mail.inbound|
    ensures x in InboundStream(mail, contact, n) <==>
              x.item.id.InboundId? && x.item.id.pk < n && IsRow(mail, contact, x.item) && x.at == x.item.occurredAt
  {
    if n > 0 { InboundExactly(mail, contact, n - 1, x); }
  }

  lemma {:induction false} OutboundExactly(mail: Mail, contact: nat, n: nat, x: Stamped<Source>)
    requires n <= |mail.outbound|
    ensures x in OutboundStream(mail, contact, n) <==>
              x.item.id.OutboundId? && x.item.id.pk < n && IsRow(mail, contact, x.item) && x.at == x.item.occurredAt
  {
    if n > 0 { OutboundExactly(mail, contact, n - 1, x); }
  }

  /** The two streams hold exactly the messages of the contact. */
  lemma StreamsHoldExactly(mail: Mail, contact: nat, x: Stamped<Source>)
    ensures x in Both(mail, contact) <==> IsRow(mail, contact, x.item) && x.at == x.item.occurredAt
  {
    InboundExactly(mail, contact, |mail.inbound|, x);
    OutboundExactly(mail, contact, |mail.outbound|, x);
  }

  // ---------- which messages are the sources ----------

  /** The messages of the contact that are newer. */
  ghost function Newer(mail: Mail, contact: nat, at: int): set<Stamped<Source>> {
    set x | x in Both(mail, contact) && x.at > at
  }

  ghost function Members<T(!new)>(s: seq<T>): set<T> {
    set x | x in s
  }

  lemma OneMemberMore<T(!new)>(front: seq<T>, x: T)
    requires x !in front
    ensures |Members(front + [x])| == |Members(front)| + 1
  {
    assert Members(front + [x]) == Members(front) + {x};
  }

  lemma {:induction false} PrefixSize<T(!new)>(s: seq<Stamped<T>>, n: nat)
    requires Descending(s) && n <= |s|
    ensures |Members(s[..n])| == n
  {
    if n == 0 {
      assert Members(s[..0]) == {};
    } else {
      PrefixSize(s, n - 1);
      var front, x := s[..n - 1], s[n - 1];
      assert forall i :: 0 <= i < n - 1 ==> front[i].at > x.at;
      assert s[..n] == front + [x];
      hide Members, Descending;
      OneMemberMore(front, x);
    }
  }

  /** In a descending history as many messages are newer as stand before. */
  lemma NewerStandBefore(mail: Mail, contact: nat, i: nat)
    requires DistinctTimes(Both(mail, contact)) && i < |Newest(Both(mail, contact))|
    ensures |Newer(mail, contact, Newest(Both(mail, contact))[i].at)| == i
  {
    var both, all := Both(mail, contact), Newest(Both(mail, contact));
    hide Both, Newest;
    NewestDescending(both);
    PrefixSize(all, i);
    forall x ensures x in Newer(mail, contact, all[i].at) <==> x in all[..i] {
      assert x in both <==> x in multiset(both);
      assert x in all <==> x in multiset(all);
      if x in all {
        var k :| 0 <= k < |all| && all[k] == x;
        if k < i { assert x == all[..i][k]; }
      }
    }
    assert Newer(mail, contact, all[i].at) == Members(all[..i]);
  }

  /** With distinct timestamps a message of the contact is a source exactly when at least six and fewer than eighteen of
      the contact's messages are newer; and the sources come oldest first. */
  lemma SourcesExactly(mail: Mail, contact: nat, s: Source)
    requires DistinctTimes(Both(mail, contact))
    ensures s in Sources(mail, contact) <==>
              IsRow(mail, contact, s) && 6 <= |Newer(mail, contact, s.occurredAt)| < 18
  {
    var both, all := Both(mail, contact), Newest(Both(mail, contact));
    var x := Stamped(s.occurredAt, s);
    StreamsHoldExactly(mail, contact, x);
    SourcesAreRanks7To18(InboundStream(mail, contact, |mail.inbound|), OutboundStream(mail, contact, |mail.outbound|));
    NewestDescending(both);
    SourceIsStamped(mail, contact, s);
    SliceExactly(all, x);
    assert x in both <==> x in multiset(both);
    assert x in all <==> x in multiset(all);
    if x in all {
      var i :| 0 <= i < |all| && all[i] == x;
      NewerStandBefore(mail, contact, i);
      assert forall k :: 0 <= k < |all| && all[k] == x ==> k == i;
    }
  }

  lemma SliceIsStamped(mail: Mail, contact: nat, y: Stamped<Source>)
    requires DistinctTimes(Both(mail, contact)) && y in Slice(Newest(Both(mail, contact)), 6, 18)
    ensures y.at == y.item.occurredAt
  {
    var both := Both(mail, contact);
    var slice := Slice(Newest(both), 6, 18);
    NewestDescending(both);
    SliceContents(Newest(both), 6, 18);
    hide Newest, Slice, Both;
    assert y in multiset(slice);
    assert y in multiset(both);
    assert y in both;
    StreamsHoldExactly(mail, contact, y);
  }

  lemma ItemsExactly(sources: seq<Stamped<Source>>, s: Source)
    requires forall y :: y in sources ==> y.at == y.item.occurredAt
    ensures s in Items(sources) <==> Stamped(s.occurredAt, s) in sources
  {
    if s in Items(sources) {
      var i :| 0 <= i < |sources| && sources[i].item == s;
      assert sources[i] in sources;
    }
    if Stamped(s.occurredAt, s) in sources {
      var i :| 0 <= i < |sources| && sources[i] == Stamped(s.occurredAt, s);
      assert Items(sources)[i] == s;
    }
  }

  lemma {:induction false} ReversedMember<T>(s: seq<T>, x: T)
    ensures x in Reverse(s) <==> x in s
  {
    if s != [] { ReversedMember(s[1..], x); }
  }

  /** A source is the item of a slice's element that carries its date. */
  lemma SourceIsStamped(mail: Mail, contact: nat, s: Source)
    requires DistinctTimes(Both(mail, contact))
    ensures s in Sources(mail, contact) <==>
              Stamped(s.occurredAt, s) in Slice(Newest(Both(mail, contact)), 6, 18)
  {
    var slice := Slice(Newest(Both(mail, contact)), 6, 18);
    var sources := HistorySources(InboundStream(mail, contact, |mail.inbound|),
                                  OutboundStream(mail, contact, |mail.outbound|));
    SourcesAreRanks7To18(InboundStream(mail, contact, |mail.inbound|), OutboundStream(mail, contact, |mail.outbound|));
    hide Newest, Slice, Reverse, HistorySources, InboundStream, OutboundStream, DistinctTimes;
    forall y: Stamped<Source> | y in sources ensures y.at == y.item.occurredAt {
      ReversedMember(slice, y);
      SliceIsStamped(mail, contact, y);
    }
    ItemsExactly(sources, s);
    ReversedMember(slice, Stamped(s.occurredAt, s));
  }

  lemma SliceExactly<T>(all: seq<T>, x: T)
    ensures x in Slice(all, 6, 18) <==> exists k :: 6 <= k < 18 && k < |all| && all[k] == x
  {
    var slice := Slice(all, 6, 18);
    assert forall k :: 0 <= k < |slice| ==> slice[k] == all[6 + k];
    if exists k :: 6 <= k < 18 && k < |all| && all[k] == x {
      var k :| 6 <= k < 18 && k < |all| && all[k] == x;
      assert slice[k - 6] == x;
    }
  }

  // ---------- what is built ----------

  /** An entry says whose message, when, and an excerpt. */
  lemma EntryExactly(f: Format, s: Source)
    ensures EntryOf(f, s) == Entry(s.id, s.occurredAt, f.excerpt(s.text))
  {
  }

  function Texts(sources: seq<Source>): seq<(SourceId, string)> {
    if sources == [] then []
    else
      var last := |sources| - 1;
      Texts(sources[..last]) + [(sources[last].id, sources[last].text)]
  }

  lemma {:induction false} TextsExactly(sources: seq<Source>)
    ensures TextsOf(sources) == Texts(sources)
  {
    if sources != [] {
      var last := |sources| - 1;
      TextsExactly(sources[..last]);
      assert TextsOf(sources) == TextsOf(sources[..last]) + [(sources[last].id, sources[last].text)];
    }
  }

  /** A memory is built when an entry fits; it holds the summary, the identifiers of its entries, and the digest of the
      summary with the full texts behind it. */
  lemma BuildsExactly(f: Format, mail: Mail, contact: nat)
    ensures var sources := Sources(mail, contact);
            var summary := SummaryOf(f, sources);
            && |summary| <= |sources|
            && (Build(f, mail, contact).None? <==> summary == [])
            && (summary != [] ==>
                  var b := Build(f, mail, contact).value;
                  && b.summary == summary && |b.ids| == |summary|
                  && (forall i :: 0 <= i < |summary| ==> b.ids[i] == sources[i].id)
                  && b.hash == Sha256(summary, Texts(sources[..|summary|])))
  {
    hide Sources, SummaryFrom, Included, TextsOf, Texts, IdsOf, EntriesOf, EntryOf, DistinctIds;
    var sources := Sources(mail, contact);
    SourcesAreReal(mail, contact);
    IncludedAreSummarised(f, sources);
    SummaryIsStable(f, [], sources);
    var summary := SummaryOf(f, sources);
    assert summary == [] + EntriesOf(f, sources[..|summary|]);
    IdsOfEntries(f, sources[..|summary|]);
    TextsExactly(sources[..|summary|]);
  }

  // ---------- what a refresh writes ----------

  /** The one version that is not superseded. */
  predicate Current(ms: seq<Record>, a: nat) {
    a < |ms| && ms[a].supersededAt == None
  }

  predicate Top(ms: seq<Record>, v: nat) {
    (ms == [] ==> v == 0) && (ms != [] ==> exists i :: 0 <= i < |ms| && ms[i].version == v)
    && forall i :: 0 <= i < |ms| ==> ms[i].version <= v
  }

  lemma {:induction false} LatestIsTop(ms: seq<Record>)
    ensures Top(ms, S.LatestVersion(ms))
  {
    if ms != [] {
      LatestIsTop(ms[..|ms| - 1]);
      var n, v := |ms| - 1, S.LatestVersion(ms);
      if n > 0 && ms[n].version != v {
        var i :| 0 <= i < n && ms[..n][i].version == v;
        assert ms[i].version == v;
      }
    }
  }

  function Closed(m: Record, now: int): Record {
    Record(m.version, m.summary, m.sourceIds, m.hash, m.createdAt, Some(now))
  }

  predicate SameMemory(m: Record, b: Built) {
    m.summary == b.summary && m.sourceIds == b.ids && m.hash == b.hash
  }

  /** Without a memory to write, the current version is superseded and nothing added; with one that the current version
      already holds, nothing changes; and else the current version is superseded and the memory added under the next
      version. */
  lemma RefreshesExactly(ms: seq<Record>, built: Option<Built>, now: int, created: int, a: nat)
    requires S.Versioned(ms) && Current(ms, a)
    ensures var ms', closed := S.Refresh(ms, built, now, created), ms[a := Closed(ms[a], now)];
            && (built == None ==> ms' == closed)
            && (built.Some? && SameMemory(ms[a], built.value) ==> ms' == ms)
            && (built.Some? && !SameMemory(ms[a], built.value) ==>
                  |ms'| == |ms| + 1 && ms'[..|ms|] == closed && AddedLast(ms, ms', built.value, created))
  {
    LatestIsTop(ms);
    assert S.Active(ms[a]);
    assert S.ActiveMemory(ms) == Some(a);
    hide S.Best, S.LatestVersion, Top;
  }

  /** The same without a current version. */
  lemma RefreshesAnEmptyShelf(ms: seq<Record>, built: Option<Built>, now: int, created: int)
    requires forall a :: !Current(ms, a)
    ensures var ms' := S.Refresh(ms, built, now, created);
            && (built == None ==> ms' == ms)
            && (built.Some? ==> |ms'| == |ms| + 1 && ms'[..|ms|] == ms && AddedLast(ms, ms', built.value, created))
  {
    LatestIsTop(ms);
    forall i: nat | i < |ms| ensures !S.Active(ms[i]) { assert !Current(ms, i); }
    hide S.LatestVersion, Top;
  }

  predicate AddedLast(ms: seq<Record>, ms': seq<Record>, b: Built, created: int) {
    |ms'| == |ms| + 1 && ms'[|ms|].version > 0 && Top(ms, ms'[|ms|].version - 1)
    && ms'[|ms|] == Record(ms'[|ms|].version, b.summary, b.ids, b.hash, created, None)
  }

  /** Created by then and not superseded by then. */
  predicate Held(m: Record, t: int) {
    m.createdAt <= t && (m.supersededAt == None || t < m.supersededAt.value)
  }

  /** An as-of read returns the newest version held at the instant, or nothing when none was. */
  lemma AsOfExactly(ms: seq<Record>, t: int)
    ensures S.AsOf(ms, t) == None <==> forall i :: 0 <= i < |ms| ==> !Held(ms[i], t)
    ensures S.AsOf(ms, t).Some? ==>
              var r := S.AsOf(ms, t).value;
              && r < |ms| && Held(ms[r], t)
              && forall i :: 0 <= i < |ms| && Held(ms[i], t) ==> ms[i].version <= ms[r].version
  {
    assert forall i :: 0 <= i < |ms| ==> (S.VisibleAt(ms[i], t) <==> Held(ms[i], t));
  }
}
