/**
 The verifiable memory of a contact's older messages (`automation/memory.py`).

 A memory is a bounded digest of some messages; it may be used only while every source still matches. SHA-256 is an
 injective constructor, and the serialised size and the excerpt of a text are parameters.
 */
module Memory {
  import opened Common
  import opened History

  const MAX_CHARACTERS := 4000

  datatype SourceId = InboundId(pk: nat) | OutboundId(pk: nat) | Malformed

  datatype Source = Source(id: SourceId, occurredAt: int, text: string)

  datatype Entry = Entry(id: SourceId, occurredAt: int, excerpt: string)

  datatype Digest = Sha256(summary: seq<Entry>, texts: seq<(SourceId, string)>)

  /** How entries are serialised and cut. */
  datatype Format = Format(size: seq<Entry> -> nat, excerpt: string -> string)

  // ---------- messages ----------

  /** `text` is what the person wrote, without quoted or signature lines; `robotic` marks automatic replies and
      bounces. */
  datatype InboundRow = InboundRow(contact: nat, human: bool, robotic: bool, at: int, text: string)

  datatype OutboundRow = OutboundRow(contact: nat, sent: bool, at: int, text: string)

  datatype Mail = Mail(inbound: seq<InboundRow>, outbound: seq<OutboundRow>)

  /** The message behind an identifier, if it may still be used for the contact. */
  function Lookup(mail: Mail, contact: nat, id: SourceId): Option<Source> {
    match id
    case InboundId(pk) =>
      if pk < |mail.inbound| && mail.inbound[pk].contact == contact && mail.inbound[pk].human
         && !mail.inbound[pk].robotic
      then Some(Source(id, mail.inbound[pk].at, mail.inbound[pk].text)) else None
    case OutboundId(pk) =>
      if pk < |mail.outbound| && mail.outbound[pk].contact == contact && mail.outbound[pk].sent
      then Some(Source(id, mail.outbound[pk].at, mail.outbound[pk].text)) else None
    case Malformed => None
  }

  /** The source is the row at its key: a human message of the contact that no machine wrote, or a sent one to it. */
  predicate IsRow(mail: Mail, contact: nat, s: Source) {
    match s.id
    case InboundId(pk) =>
      && pk < |mail.inbound| && mail.inbound[pk].contact == contact
      && mail.inbound[pk].human && !mail.inbound[pk].robotic
      && s.occurredAt == mail.inbound[pk].at && s.text == mail.inbound[pk].text
    case OutboundId(pk) =>
      && pk < |mail.outbound| && mail.outbound[pk].contact == contact && mail.outbound[pk].sent
      && s.occurredAt == mail.outbound[pk].at && s.text == mail.outbound[pk].text
    case Malformed => false
  }

  lemma LookupExactly(mail: Mail, contact: nat, id: SourceId, s: Source)
    ensures Lookup(mail, contact, id) == Some(s) <==> s.id == id && IsRow(mail, contact, s)
  {
  }

  function InboundStream(mail: Mail, contact: nat, n: nat): seq<Stamped<Source>> {
    if n == 0 then []
    else
      var s := Lookup(mail, contact, InboundId(n - 1));
      InboundStream(mail, contact, n - 1) + (if s.Some? then [Stamped(s.value.occurredAt, s.value)] else [])
  }

  function OutboundStream(mail: Mail, contact: nat, n: nat): seq<Stamped<Source>> {
    if n == 0 then []
    else
      var s := Lookup(mail, contact, OutboundId(n - 1));
      OutboundStream(mail, contact, n - 1) + (if s.Some? then [Stamped(s.value.occurredAt, s.value)] else [])
  }

  function Items<T>(s: seq<Stamped<T>>): (r: seq<T>)
    ensures |r| == |s| && forall i :: 0 <= i < |s| ==> r[i] == s[i].item
  {
    seq(|s|, i requires 0 <= i < |s| => s[i].item)
  }

  /** `_history_sources`. */
  function Sources(mail: Mail, contact: nat): seq<Source> {
    Items(HistorySources(InboundStream(mail, contact, |mail.inbound|), OutboundStream(mail, contact, |mail.outbound|)))
  }

  // ---------- the sources are real and distinct ----------

  ghost predicate Real(mail: Mail, contact: nat, s: Source) {
    Lookup(mail, contact, s.id) == Some(s)
  }

  /** Real messages, each at most once. */
  ghost predicate Genuine(mail: Mail, contact: nat, m: multiset<Stamped<Source>>) {
    && (forall x :: x in m ==> Real(mail, contact, x.item) && x.at == x.item.occurredAt && m[x] == 1)
  }

  lemma NothingIsGenuine(mail: Mail, contact: nat)
    ensures Genuine(mail, contact, multiset([]))
  {
  }

  lemma GenuineGrows(mail: Mail, contact: nat, rest: seq<Stamped<Source>>, s: Source)
    requires Genuine(mail, contact, multiset(rest)) && Lookup(mail, contact, s.id) == Some(s)
    requires forall x :: x in rest ==> x.item.id != s.id
    ensures Genuine(mail, contact, multiset(rest + [Stamped(s.occurredAt, s)]))
  {
    hide Lookup;
    var new' := Stamped(s.occurredAt, s);
    assert new' !in rest;
    assert multiset(rest + [new']) == multiset(rest) + multiset{new'};
  }

  lemma {:induction false} InboundIds(mail: Mail, contact: nat, n: nat)
    ensures forall x :: x in InboundStream(mail, contact, n) ==> x.item.id.InboundId? && x.item.id.pk < n
  {
    if n > 0 {
      InboundIds(mail, contact, n - 1);
      LookupKeepsId(mail, contact, InboundId(n - 1));
    }
  }

  lemma {:induction false} InboundGenuine(mail: Mail, contact: nat, n: nat)
    ensures Genuine(mail, contact, multiset(InboundStream(mail, contact, n)))
  {
    hide Lookup, Genuine, Real;
    if n == 0 {
      NothingIsGenuine(mail, contact);
    } else {
      InboundGenuine(mail, contact, n - 1);
      InboundIds(mail, contact, n - 1);
      LookupKeepsId(mail, contact, InboundId(n - 1));
      var s := Lookup(mail, contact, InboundId(n - 1));
      var rest := InboundStream(mail, contact, n - 1);
      if s.Some? { GenuineGrows(mail, contact, rest, s.value); } else { assert rest + [] == rest; }
    }
  }

  lemma {:induction false} OutboundIds(mail: Mail, contact: nat, n: nat)
    ensures forall x :: x in OutboundStream(mail, contact, n) ==> x.item.id.OutboundId? && x.item.id.pk < n
  {
    if n > 0 {
      OutboundIds(mail, contact, n - 1);
      LookupKeepsId(mail, contact, OutboundId(n - 1));
    }
  }

  lemma {:induction false} OutboundGenuine(mail: Mail, contact: nat, n: nat)
    ensures Genuine(mail, contact, multiset(OutboundStream(mail, contact, n)))
  {
    hide Lookup, Genuine, Real;
    if n == 0 {
      NothingIsGenuine(mail, contact);
    } else {
      OutboundGenuine(mail, contact, n - 1);
      OutboundIds(mail, contact, n - 1);
      LookupKeepsId(mail, contact, OutboundId(n - 1));
      var s := Lookup(mail, contact, OutboundId(n - 1));
      var rest := OutboundStream(mail, contact, n - 1);
      if s.Some? { GenuineGrows(mail, contact, rest, s.value); } else { assert rest + [] == rest; }
    }
  }

  lemma {:induction false} NewestContents<T>(s: seq<Stamped<T>>)
    ensures multiset(Newest(s)) == multiset(s)
  {
    if s != [] {
      NewestContents(s[1..]);
      InsertContents(s[0], Newest(s[1..]));
      assert s == [s[0]] + s[1..];
    }
  }

  lemma {:induction false} ReverseContents<T>(s: seq<T>)
    ensures multiset(Reverse(s)) == multiset(s) && |Reverse(s)| == |s|
  {
    if s != [] {
      ReverseContents(s[1..]);
      assert s == [s[0]] + s[1..];
    }
  }

  lemma SliceContents<T>(s: seq<T>, from: nat, to: nat)
    requires from <= to
    ensures multiset(Slice(s, from, to)) <= multiset(s) && |Slice(s, from, to)| <= to - from
  {
    var t := Take(s, to);
    PrefixContents(s, to);
    var n := |Take(s, from)|;
    assert t == t[..n] + t[n..];
  }

  lemma HistoryContents<T>(xs: seq<Stamped<T>>, ys: seq<Stamped<T>>)
    ensures multiset(HistorySources(xs, ys)) <= multiset(xs) + multiset(ys)
    ensures |HistorySources(xs, ys)| <= MAX_MEMORY_SOURCES
  {
    NewestContents(xs);
    NewestContents(ys);
    PrefixContents(Newest(xs), 18);
    PrefixContents(Newest(ys), 18);
    var both := Take(Newest(xs), 18) + Take(Newest(ys), 18);
    NewestContents(both);
    assert multiset(both) == multiset(Take(Newest(xs), 18)) + multiset(Take(Newest(ys), 18));
    SliceContents(Newest(both), 6, 18);
    ReverseContents(Slice(Newest(both), 6, 18));
  }

  ghost predicate DistinctIds(s: seq<Source>) {
    forall i, j :: 0 <= i < j < |s| ==> s[i].id != s[j].id
  }

  lemma GenuineDistinct(mail: Mail, contact: nat, s: seq<Stamped<Source>>)
    requires Genuine(mail, contact, multiset(s))
    ensures DistinctIds(Items(s)) && forall i :: 0 <= i < |s| ==> Real(mail, contact, Items(s)[i])
  {
    forall i | 0 <= i < |s| ensures Real(mail, contact, s[i].item) {
      assert s[i] in multiset(s);
    }
    forall i, j | 0 <= i < j < |s| ensures s[i].item.id != s[j].item.id {
      assert s[i] in multiset(s) && s[j] in multiset(s);
      if s[i].item.id == s[j].item.id {
        assert s[i] == s[j];
        Repeated(s, i, j);
      }
    }
  }

  lemma Repeated<T>(s: seq<T>, i: nat, j: nat)
    requires i < j < |s| && s[i] == s[j]
    ensures multiset(s)[s[i]] >= 2
  {
    var a, b := s[..j], s[j..];
    assert s == a + b && a[i] == s[i] && b[0] == s[i];
    assert s[i] in a && s[i] in b;
    assert multiset(a)[s[i]] >= 1 && multiset(b)[s[i]] >= 1;
  }

  lemma SourcesAreReal(mail: Mail, contact: nat)
    ensures var s := Sources(mail, contact);
            |s| <= MAX_MEMORY_SOURCES && DistinctIds(s) && forall i :: 0 <= i < |s| ==> Real(mail, contact, s[i])
  {
    var xs, ys := InboundStream(mail, contact, |mail.inbound|), OutboundStream(mail, contact, |mail.outbound|);
    InboundGenuine(mail, contact, |mail.inbound|);
    OutboundGenuine(mail, contact, |mail.outbound|);
    InboundIds(mail, contact, |mail.inbound|);
    OutboundIds(mail, contact, |mail.outbound|);
    HistoryContents(xs, ys);
    BothGenuine(mail, contact, xs, ys, HistorySources(xs, ys));
    GenuineDistinct(mail, contact, HistorySources(xs, ys));
  }

  /** Every source of a memory is a message of its contact, a human's or a sent one, with that row's date and text;
      there are at most twelve, and none twice. */
  lemma SourcesAreGenuine(mail: Mail, contact: nat)
    ensures var s := Sources(mail, contact);
            && |s| <= 12
            && (forall i :: 0 <= i < |s| ==> IsRow(mail, contact, s[i]))
            && forall i, j :: 0 <= i < j < |s| ==> s[i].id != s[j].id
  {
    SourcesAreReal(mail, contact);
    hide Sources;
    forall i | 0 <= i < |Sources(mail, contact)| ensures IsRow(mail, contact, Sources(mail, contact)[i]) {
      assert Real(mail, contact, Sources(mail, contact)[i]);
      LookupExactly(mail, contact, Sources(mail, contact)[i].id, Sources(mail, contact)[i]);
    }
  }

  lemma BothGenuine(mail: Mail, contact: nat, xs: seq<Stamped<Source>>, ys: seq<Stamped<Source>>,
                    s: seq<Stamped<Source>>)
    requires Genuine(mail, contact, multiset(xs)) && Genuine(mail, contact, multiset(ys))
    requires forall x :: x in xs ==> x.item.id.InboundId?
    requires forall y :: y in ys ==> y.item.id.OutboundId?
    requires multiset(s) <= multiset(xs) + multiset(ys)
    ensures Genuine(mail, contact, multiset(s))
  {
    hide Real;
    forall x | x in multiset(s)
      ensures Real(mail, contact, x.item) && x.at == x.item.occurredAt && multiset(s)[x] == 1
    {
      assert x in multiset(xs) || x in multiset(ys);
      if x in multiset(xs) {
        assert x in xs;
        assert x !in ys;
      } else {
        assert x in ys;
      }
    }
  }

  // ---------- the summary ----------

  function EntryOf(f: Format, s: Source): Entry {
    Entry(s.id, s.occurredAt, f.excerpt(s.text))
  }

  /** The loop of `_summary_for_sources`: stop at the first entry that does not fit. */
  function SummaryFrom(f: Format, entries: seq<Entry>, rest: seq<Source>): seq<Entry>
    decreases |rest|
  {
    if rest == [] || f.size(entries + [EntryOf(f, rest[0])]) > MAX_CHARACTERS then entries
    else SummaryFrom(f, entries + [EntryOf(f, rest[0])], rest[1..])
  }

  function SummaryOf(f: Format, sources: seq<Source>): seq<Entry> {
    SummaryFrom(f, [], sources)
  }

  function EntriesOf(f: Format, sources: seq<Source>): (r: seq<Entry>)
    ensures |r| == |sources| && forall i :: 0 <= i < |sources| ==> r[i] == EntryOf(f, sources[i])
  {
    seq(|sources|, i requires 0 <= i < |sources| => EntryOf(f, sources[i]))
  }

  lemma EntriesCons(f: Format, s: Source, rest: seq<Source>)
    ensures EntriesOf(f, [s] + rest) == [EntryOf(f, s)] + EntriesOf(f, rest)
  {
  }

  /** The summary covers a prefix, fits, and cutting the sources down to that prefix leaves it as it is. */
  lemma {:induction false} SummaryIsStable(f: Format, entries: seq<Entry>, rest: seq<Source>)
    ensures var r := SummaryFrom(f, entries, rest);
            && |entries| <= |r| <= |entries| + |rest|
            && r == entries + EntriesOf(f, rest[..|r| - |entries|])
            && (r != entries ==> f.size(r) <= MAX_CHARACTERS)
            && SummaryFrom(f, entries, rest[..|r| - |entries|]) == r
    decreases |rest|
  {
    hide EntriesOf, EntryOf;
    var r := SummaryFrom(f, entries, rest);
    if rest != [] && f.size(entries + [EntryOf(f, rest[0])]) <= MAX_CHARACTERS {
      var entry := EntryOf(f, rest[0]);
      var next := entries + [entry];
      SummaryIsStable(f, next, rest[1..]);
      var n := |r| - |next|;
      var kept := rest[1..][..n];
      assert rest[..n + 1] == [rest[0]] + kept;
      assert rest[..n + 1][1..] == kept;
      EntriesCons(f, rest[0], kept);
      assert next + EntriesOf(f, kept) == entries + ([entry] + EntriesOf(f, kept));
    } else {
      assert rest[..0] == [];
      assert EntriesOf(f, []) == [];
      assert entries + [] == entries;
    }
  }

  /** The same loop, step by step. */
  method SummaryForSources(f: Format, sources: seq<Source>) returns (entries: seq<Entry>)
    ensures entries == SummaryOf(f, sources)
    ensures |entries| <= |sources| && entries == EntriesOf(f, sources[..|entries|])
    ensures entries != [] ==> f.size(entries) <= MAX_CHARACTERS
  {
    entries := [];
    var i := 0;
    while i < |sources|
      invariant i <= |sources|
      invariant SummaryFrom(f, entries, sources[i..]) == SummaryOf(f, sources)
    {
      var entry := EntryOf(f, sources[i]);
      assert sources[i..][1..] == sources[i + 1..];
      if f.size(entries + [entry]) > MAX_CHARACTERS { break; }
      entries := entries + [entry];
      i := i + 1;
    }
    SummaryIsStable(f, [], sources);
  }

  // ---------- hash and verification ----------

  function TextsOf(sources: seq<Source>): (r: seq<(SourceId, string)>)
    ensures |r| == |sources| && forall i :: 0 <= i < |sources| ==> r[i] == (sources[i].id, sources[i].text)
  {
    seq(|sources|, i requires 0 <= i < |sources| => (sources[i].id, sources[i].text))
  }

  /** `_source_hash`. */
  function HashOf(summary: seq<Entry>, sources: seq<Source>): Digest {
    Sha256(summary, TextsOf(sources))
  }

  datatype Record = Record(
    version: nat,
    summary: seq<Entry>,
    sourceIds: seq<SourceId>,
    hash: Digest,
    createdAt: int,
    supersededAt: Option<int>)

  ghost predicate AllFound(mail: Mail, contact: nat, ids: seq<SourceId>) {
    forall i :: 0 <= i < |ids| ==> Lookup(mail, contact, ids[i]).Some?
  }

  /** `_sources_by_ids`. */
  ghost function SourcesByIds(mail: Mail, contact: nat, ids: seq<SourceId>): Option<seq<Source>> {
    if ids == [] || |ids| > MAX_MEMORY_SOURCES || (exists i, j :: 0 <= i < j < |ids| && ids[i] == ids[j])
       || !AllFound(mail, contact, ids) then None
    else Some(seq(|ids|, i requires 0 <= i < |ids| && AllFound(mail, contact, ids) =>
                Lookup(mail, contact, ids[i]).value))
  }

  /** `verified_conversation_memory_text`: the summary stands for its serialised text. */
  ghost function Verified(f: Format, mail: Mail, contact: nat, m: Record): Option<seq<Entry>> {
    var sources := SourcesByIds(mail, contact, m.sourceIds);
    if sources.None? then None
    else
      var expected := SummaryOf(f, sources.value);
      if m.summary != expected || f.size(m.summary) > MAX_CHARACTERS || HashOf(expected, sources.value) != m.hash
      then None
      else Some(m.summary)
  }

  // ---------- what refresh writes ----------

  function IdsOf(entries: seq<Entry>): (r: seq<SourceId>)
    ensures |r| == |entries| && forall i :: 0 <= i < |entries| ==> r[i] == entries[i].id
  {
    seq(|entries|, i requires 0 <= i < |entries| => entries[i].id)
  }

  /** The sources whose identifier is in the summary. */
  function Included(sources: seq<Source>, ids: seq<SourceId>): seq<Source> {
    if sources == [] then []
    else (if sources[0].id in ids then [sources[0]] else []) + Included(sources[1..], ids)
  }

  lemma {:induction false} IncludedNone(sources: seq<Source>, ids: seq<SourceId>)
    requires forall i :: 0 <= i < |sources| ==> sources[i].id !in ids
    ensures Included(sources, ids) == []
  {
    if sources != [] { IncludedNone(sources[1..], ids); }
  }

  lemma {:induction false} IncludedIsPrefix(sources: seq<Source>, ids: seq<SourceId>, n: nat)
    requires n <= |sources|
    requires forall i :: 0 <= i < n ==> sources[i].id in ids
    requires forall i :: n <= i < |sources| ==> sources[i].id !in ids
    ensures Included(sources, ids) == sources[..n]
  {
    if n == 0 {
      IncludedNone(sources, ids);
    } else {
      IncludedIsPrefix(sources[1..], ids, n - 1);
      assert sources[..n] == [sources[0]] + sources[1..][..n - 1];
    }
  }

  datatype Built = Built(summary: seq<Entry>, ids: seq<SourceId>, hash: Digest)

  function BuildFrom(f: Format, sources: seq<Source>): Option<Built> {
    var summary := SummaryOf(f, sources);
    var included := Included(sources, IdsOf(summary));
    if included == [] then None else Some(Built(summary, IdsOf(summary), HashOf(summary, included)))
  }

  /** What a refresh finds worth remembering, if anything. */
  function Build(f: Format, mail: Mail, contact: nat): Option<Built> {
    BuildFrom(f, Sources(mail, contact))
  }

  predicate Holds(m: Record, b: Built) {
    m.summary == b.summary && m.sourceIds == b.ids && m.hash == b.hash
  }

  lemma IncludedAreSummarised(f: Format, sources: seq<Source>)
    requires DistinctIds(sources)
    ensures |SummaryOf(f, sources)| <= |sources|
    ensures Included(sources, IdsOf(SummaryOf(f, sources))) == sources[..|SummaryOf(f, sources)|]
  {
    hide SummaryFrom, EntriesOf, EntryOf, IdsOf, Included;
    SummaryIsStable(f, [], sources);
    var summary := SummaryOf(f, sources);
    var n := |summary|;
    assert summary == [] + EntriesOf(f, sources[..n]);
    IdsOfEntries(f, sources[..n]);
    NamesOfPrefix(sources, IdsOf(summary), n);
    IncludedIsPrefix(sources, IdsOf(summary), n);
  }

  /** The identifiers of the first sources are not those of the others. */
  lemma NamesOfPrefix(sources: seq<Source>, ids: seq<SourceId>, n: nat)
    requires DistinctIds(sources) && n <= |sources| && |ids| == n
    requires forall i :: 0 <= i < n ==> ids[i] == sources[..n][i].id
    ensures forall i :: 0 <= i < n ==> sources[i].id in ids
    ensures forall i :: n <= i < |sources| ==> sources[i].id !in ids
  {
    forall i | 0 <= i < n ensures sources[i].id in ids { assert ids[i] == sources[i].id; }
  }

  /** `b` describes exactly the messages `kept`, within the limit. */
  ghost predicate Describes(f: Format, b: Built, kept: seq<Source>) {
    && kept != [] && |b.ids| == |kept|
    && (forall i :: 0 <= i < |kept| ==> b.ids[i] == kept[i].id)
    && b.summary == EntriesOf(f, kept) == SummaryOf(f, kept)
    && b.hash == HashOf(b.summary, kept)
    && f.size(b.summary) <= MAX_CHARACTERS
  }

  lemma IdsOfEntries(f: Format, kept: seq<Source>)
    ensures |IdsOf(EntriesOf(f, kept))| == |kept|
    ensures forall i :: 0 <= i < |kept| ==> IdsOf(EntriesOf(f, kept))[i] == kept[i].id
  {
  }

  lemma BuiltDescribesPrefix(f: Format, sources: seq<Source>)
    requires DistinctIds(sources) && BuildFrom(f, sources).Some?
    ensures |BuildFrom(f, sources).value.ids| <= |sources|
    ensures Describes(f, BuildFrom(f, sources).value, sources[..|BuildFrom(f, sources).value.ids|])
  {
    hide SummaryFrom, Included, HashOf, EntriesOf, TextsOf, EntryOf, DistinctIds, IdsOf;
    IncludedAreSummarised(f, sources);
    SummaryIsStable(f, [], sources);
    var summary := SummaryOf(f, sources);
    var kept := sources[..|summary|];
    assert summary == EntriesOf(f, kept) by { assert summary == [] + EntriesOf(f, kept); }
    IdsOfEntries(f, kept);
  }

  /** A row of the contact stands behind the identifier. */
  ghost predicate IsKey(mail: Mail, contact: nat, id: SourceId) {
    exists s: Source :: s.id == id && IsRow(mail, contact, s)
  }

  /** Whatever a memory names is a message of its contact. */
  lemma BuiltNamesRows(f: Format, mail: Mail, contact: nat, i: nat)
    requires Build(f, mail, contact).Some? && i < |Build(f, mail, contact).value.ids|
    ensures IsKey(mail, contact, Build(f, mail, contact).value.ids[i])
  {
    var sources := Sources(mail, contact);
    SourcesAreReal(mail, contact);
    SourcesAreGenuine(mail, contact);
    BuiltDescribesPrefix(f, sources);
    hide Sources, BuildFrom, IsRow, Real;
    assert sources[i].id == Build(f, mail, contact).value.ids[i];
  }

  ghost predicate AllReal(mail: Mail, contact: nat, kept: seq<Source>) {
    forall i :: 0 <= i < |kept| ==> Real(mail, contact, kept[i])
  }

  /** While the messages are there unchanged, the memory verifies. */
  lemma VerifiesWhileReal(f: Format, mail: Mail, contact: nat, m: Record, b: Built, kept: seq<Source>)
    requires Holds(m, b) && Describes(f, b, kept) && DistinctIds(kept) && |kept| <= MAX_MEMORY_SOURCES
    requires AllReal(mail, contact, kept)
    ensures Verified(f, mail, contact, m) == Some(m.summary)
  {
    hide SummaryFrom;
    forall i | 0 <= i < |kept| ensures Lookup(mail, contact, m.sourceIds[i]) == Some(kept[i]) {
      assert Real(mail, contact, kept[i]);
    }
    hide Lookup;
    assert SourcesByIds(mail, contact, m.sourceIds).value == kept;
  }

  /** A memory that verifies proves its messages unchanged. */
  lemma VerifiedMeansReal(f: Format, mail: Mail, contact: nat, m: Record, b: Built, kept: seq<Source>)
    requires Holds(m, b) && Describes(f, b, kept) && Verified(f, mail, contact, m).Some?
    ensures AllReal(mail, contact, kept)
  {
    var now := SourcesByIds(mail, contact, m.sourceIds).value;
    SummaryIsStable(f, [], now);
    hide SummaryFrom, Lookup;
    assert TextsOf(now) == TextsOf(kept);
    assert SummaryOf(f, now) == [] + EntriesOf(f, now[..|now|]);
    assert now[..|now|] == now;
    forall i | 0 <= i < |kept| ensures Real(mail, contact, kept[i]) {
      LookupKeepsId(mail, contact, m.sourceIds[i]);
      assert TextsOf(now)[i] == TextsOf(kept)[i];
      assert EntriesOf(f, now)[i] == EntriesOf(f, kept)[i];
      assert now[i] == kept[i];
    }
  }

  lemma LookupKeepsId(mail: Mail, contact: nat, id: SourceId)
    ensures Lookup(mail, contact, id).Some? ==> Lookup(mail, contact, id).value.id == id
  {
  }

  /** The exact life of a memory: built from `mail`, it verifies against `mail'` if and only if every source is still
      there with the same full text and date, and then it stays within the limit. */
  lemma VerifiesExactlyWhileUnchanged(f: Format, mail: Mail, mail': Mail, contact: nat, m: Record)
    requires Build(f, mail, contact).Some? && Holds(m, Build(f, mail, contact).value)
    ensures Verified(f, mail', contact, m).Some? <==>
              forall i :: 0 <= i < |m.sourceIds| ==>
                Lookup(mail', contact, m.sourceIds[i]) == Lookup(mail, contact, m.sourceIds[i])
    ensures Verified(f, mail', contact, m).Some? ==>
              Verified(f, mail', contact, m) == Some(m.summary) && f.size(m.summary) <= MAX_CHARACTERS
  {
    var sources, b := Sources(mail, contact), Build(f, mail, contact).value;
    SourcesAreReal(mail, contact);
    BuiltDescribesPrefix(f, sources);
    var kept := sources[..|b.ids|];
    assert AllReal(mail, contact, kept);
    RealMeansSameLookup(mail, mail', contact, b.ids, kept);
    hide Sources, BuildFrom, Real, Lookup, AllReal, SourcesByIds, SummaryFrom;
    if AllReal(mail', contact, kept) {
      VerifiesWhileReal(f, mail', contact, m, b, kept);
    } else if Verified(f, mail', contact, m).Some? {
      VerifiedMeansReal(f, mail', contact, m, b, kept);
    }
  }

  lemma RealMeansSameLookup(mail: Mail, mail': Mail, contact: nat, ids: seq<SourceId>, kept: seq<Source>)
    requires AllReal(mail, contact, kept) && |ids| == |kept| && forall i :: 0 <= i < |kept| ==> ids[i] == kept[i].id
    ensures AllReal(mail', contact, kept) <==>
              forall i :: 0 <= i < |ids| ==> Lookup(mail', contact, ids[i]) == Lookup(mail, contact, ids[i])
  {
    hide Lookup;
    forall i | 0 <= i < |kept| ensures Lookup(mail, contact, ids[i]) == Some(kept[i]) {
      assert Real(mail, contact, kept[i]);
    }
  }
}
