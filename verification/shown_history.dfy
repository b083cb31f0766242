/**
 What a reply request is offered of a contact's history, with the memory as it is stored: its summary stops at the first
 source that does not fit in 4000 characters.
 */
module ShownHistory {
  import opened Common
  import opened History
  import opened Memory
  import opened Readers

  function Received(mail: Mail, contact: nat): seq<Stamped<Source>> {
    InboundStream(mail, contact, |mail.inbound|)
  }

  function Sent(mail: Mail, contact: nat): seq<Stamped<Source>> {
    OutboundStream(mail, contact, |mail.outbound|)
  }

  /** Every step of the summary fits. */
  ghost predicate AllFit(f: Format, sources: seq<Source>) {
    forall n :: 1 <= n <= |sources| ==> f.size(EntriesOf(f, sources[..n])) <= MAX_CHARACTERS
  }

  /** From `entries` on, the loop takes all of `rest` exactly when no step of it is too long. */
  lemma {:induction false} SummaryTakesAllExactly(f: Format, entries: seq<Entry>, rest: seq<Source>)
    ensures |SummaryFrom(f, entries, rest)| == |entries| + |rest| <==>
              forall n :: 1 <= n <= |rest| ==> f.size(entries + EntriesOf(f, rest[..n])) <= MAX_CHARACTERS
    decreases |rest|
  {
    hide EntriesOf, EntryOf;
    SummaryIsStable(f, entries, rest);
    if rest != [] {
      var next := entries + [EntryOf(f, rest[0])];
      FirstEntry(f, rest);
      assert entries + EntriesOf(f, rest[..1]) == next;
      if f.size(next) <= MAX_CHARACTERS {
        SummaryTakesAllExactly(f, next, rest[1..]);
        forall n | 1 <= n < |rest|
          ensures entries + EntriesOf(f, rest[..n + 1]) == next + EntriesOf(f, rest[1..][..n])
        {
          assert rest[..n + 1] == [rest[0]] + rest[1..][..n];
          EntriesCons(f, rest[0], rest[1..][..n]);
        }
        StepsAgree(f, entries, next, rest);
      }
    }
  }

  lemma FirstEntry(f: Format, rest: seq<Source>)
    requires rest != []
    ensures EntriesOf(f, rest[..1]) == [EntryOf(f, rest[0])]
  {
  }

  /** The steps after the first one are the steps of the rest. */
  lemma StepsAgree(f: Format, entries: seq<Entry>, next: seq<Entry>, rest: seq<Source>)
    requires rest != [] && f.size(entries + EntriesOf(f, rest[..1])) <= MAX_CHARACTERS
    requires forall n :: 1 <= n < |rest| ==>
               entries + EntriesOf(f, rest[..n + 1]) == next + EntriesOf(f, rest[1..][..n])
    ensures (forall n :: 1 <= n <= |rest| ==> f.size(entries + EntriesOf(f, rest[..n])) <= MAX_CHARACTERS)
            <==> (forall n :: 1 <= n <= |rest| - 1 ==>
                    f.size(next + EntriesOf(f, rest[1..][..n])) <= MAX_CHARACTERS)
  {
    hide EntriesOf;
    if forall n :: 1 <= n <= |rest| - 1 ==> f.size(next + EntriesOf(f, rest[1..][..n])) <= MAX_CHARACTERS {
      forall n | 1 <= n <= |rest| ensures f.size(entries + EntriesOf(f, rest[..n])) <= MAX_CHARACTERS {
        if n > 1 { assert entries + EntriesOf(f, rest[..n - 1 + 1]) == next + EntriesOf(f, rest[1..][..n - 1]); }
      }
    } else {
      var n :| 1 <= n <= |rest| - 1 && f.size(next + EntriesOf(f, rest[1..][..n])) > MAX_CHARACTERS;
      assert f.size(entries + EntriesOf(f, rest[..n + 1])) > MAX_CHARACTERS;
    }
  }

  lemma AllFitExactly(f: Format, sources: seq<Source>)
    ensures |SummaryOf(f, sources)| == |sources| <==> AllFit(f, sources)
  {
    SummaryTakesAllExactly(f, [], sources);
    forall n | 1 <= n <= |sources| ensures [] + EntriesOf(f, sources[..n]) == EntriesOf(f, sources[..n]) {}
  }

  /** The messages behind the memory's summary, oldest first. */
  function Remembered(f: Format, mail: Mail, contact: nat): seq<Stamped<Source>> {
    Take(HistorySources(Received(mail, contact), Sent(mail, contact)), |SummaryOf(f, Sources(mail, contact))|)
  }

  lemma RememberedAreSummarised(f: Format, mail: Mail, contact: nat)
    ensures SummaryOf(f, Sources(mail, contact)) == EntriesOf(f, Items(Remembered(f, mail, contact)))
    ensures |Sources(mail, contact)| == |HistorySources(Received(mail, contact), Sent(mail, contact))|
    ensures |Remembered(f, mail, contact)| == |SummaryOf(f, Sources(mail, contact))| <= |Sources(mail, contact)|
  {
    hide EntriesOf, HistorySources, SummaryOf;
    var sources := HistorySources(Received(mail, contact), Sent(mail, contact));
    SummaryIsPrefix(f, Items(sources));
    var kept := |SummaryOf(f, Items(sources))|;
    assert Items(sources)[..kept] == Items(sources[..kept]);
  }

  lemma SummaryIsPrefix(f: Format, sources: seq<Source>)
    ensures |SummaryOf(f, sources)| <= |sources|
    ensures SummaryOf(f, sources) == EntriesOf(f, sources[..|SummaryOf(f, sources)|])
  {
    SummaryIsStable(f, [], sources);
  }

  /** What is offered, for every history without equal timestamps: the recent messages are the six newest that the
      queries keep, and the memory holds the oldest sources that fit. Of the 18 newest both miss, besides those left
      out of the recent ones, only sources that did not fit. They cover the 18 newest if and only if none of the six
      newest is left out and all sources fit; they share no message if and only if no more of the six newest are left
      out than the sources that did not fit make up for, or everything remembered is left out as well. */
  lemma OfferedHistory(f: Format, mail: Mail, contact: nat, hides: Source -> bool, mandatory: Source -> bool)
    requires DistinctTimes(Received(mail, contact) + Sent(mail, contact))
    requires Leaves(Received(mail, contact) + Sent(mail, contact), hides, mandatory)
    ensures var all := Newest(Received(mail, contact) + Sent(mail, contact));
            var top, older := Take(all, 6), Slice(all, 6, 18);
            var recent := RecentMessages(Received(mail, contact), Sent(mail, contact), hides, mandatory);
            var memory := Remembered(f, mail, contact);
            && recent == Take(Visible(all, hides), 6)
            && |memory| <= |older| && memory == Reverse(Kept(older, |memory|))
            && MissesOnlyHidden(recent + Dropped(older, |memory|), memory, Take(all, 18), hides)
            && (Covers(recent, memory, Take(all, 18)) <==> NoneHidden(top, hides) && AllFit(f, Sources(mail, contact)))
            && (Disjoint(recent, memory) <==>
                  || |top| - |Visible(top, hides)| <= |Visible(Dropped(older, |memory|), hides)|
                  || AllHidden(memory, hides))
  {
    hide Newest, Visible, Take, Slice, Reverse, RecentMessages, HistorySources, DistinctTimes, Leaves, Kept, Dropped,
         AllFit, SummaryOf, Received, Sent, Remembered, Sources;
    RememberedAreSummarised(f, mail, contact);
    RememberedIsPrefix(f, mail, contact);
    AllFitExactly(f, Sources(mail, contact));
    ReadersCoverTheNewest(Received(mail, contact), Sent(mail, contact), hides, mandatory,
                          |Remembered(f, mail, contact)|);
  }

  lemma RememberedIsPrefix(f: Format, mail: Mail, contact: nat)
    ensures var sources := HistorySources(Received(mail, contact), Sent(mail, contact));
            |Remembered(f, mail, contact)| <= |sources|
            && Remembered(f, mail, contact) == sources[..|Remembered(f, mail, contact)|]
  {
    hide HistorySources, SummaryOf;
  }

  // ---------- twelve long messages ----------

  /** Every entry has a full excerpt and takes 379 characters. */
  const LONG := Format(entries => 55 + 379 * |entries|, text => text)

  lemma {:induction false} TenFit(entries: seq<Entry>, rest: seq<Source>)
    requires |entries| <= 10
    ensures |SummaryFrom(LONG, entries, rest)| == if |entries| + |rest| <= 10 then |entries| + |rest| else 10
    decreases |rest|
  {
    if rest != [] && |entries| < 10 { TenFit(entries + [EntryOf(LONG, rest[0])], rest[1..]); }
  }

  /** With long messages and nothing left out of the recent ones, the seventh and the eighth newest of 18 or more are
      shown by neither reader. */
  lemma RanksSevenAndEightAreMissing(mail: Mail, contact: nat, hides: Source -> bool, mandatory: Source -> bool)
    requires DistinctTimes(Received(mail, contact) + Sent(mail, contact))
    requires Leaves(Received(mail, contact) + Sent(mail, contact), hides, mandatory)
    requires var all := Newest(Received(mail, contact) + Sent(mail, contact));
             |all| >= 18 && NoneHidden(Take(all, 6), hides)
    ensures var all := Newest(Received(mail, contact) + Sent(mail, contact));
            var recent := RecentMessages(Received(mail, contact), Sent(mail, contact), hides, mandatory);
            var memory := Remembered(LONG, mail, contact);
            all[6] !in recent && all[6] !in memory && all[7] !in recent && all[7] !in memory
  {
    var all := Newest(Received(mail, contact) + Sent(mail, contact));
    var older, memory := Slice(all, 6, 18), Remembered(LONG, mail, contact);
    assert |older| == 12 && older[0] == all[6] && older[1] == all[7];
    NewestDescending(Received(mail, contact) + Sent(mail, contact));
    TenFit([], Sources(mail, contact));
    hide Newest, Visible, Take, Slice, Reverse, RecentMessages, HistorySources, DistinctTimes, Leaves, SummaryOf,
         Received, Sent, Remembered, Sources, Descending, NoneHidden;
    RememberedAreSummarised(LONG, mail, contact);
    ReadersCoverTheNewest(Received(mail, contact), Sent(mail, contact), hides, mandatory, |memory|);
    OfferedHistory(LONG, mail, contact, hides, mandatory);
    assert |memory| == 10 by { SummaryLength(LONG, mail, contact); }
    DroppedAreMissing(all, hides, 10);
    ReverseMembers(Kept(older, 10));
    assert Dropped(older, 10)[0] == all[6] && Dropped(older, 10)[1] == all[7];
  }

  lemma SummaryLength(f: Format, mail: Mail, contact: nat)
    ensures |SummaryOf(f, Sources(mail, contact))| == |SummaryFrom(f, [], Sources(mail, contact))|
  {
  }

  /** Message `i` was received at instant `i`. */
  const EIGHTEEN := Mail(seq(18, i => InboundRow(0, true, false, i, "")), [])

  lemma {:induction false} EighteenStream(n: nat)
    requires n <= 18
    ensures |InboundStream(EIGHTEEN, 0, n)| == n
    ensures forall i :: 0 <= i < n ==> InboundStream(EIGHTEEN, 0, n)[i].at == i
  {
    if n > 0 { EighteenStream(n - 1); }
  }

  /** Such histories exist, and then the two readers do not cover the newest messages. */
  lemma LongMessagesAreNotCovered()
    ensures DistinctTimes(Received(EIGHTEEN, 0) + Sent(EIGHTEEN, 0))
    ensures var all := Newest(Received(EIGHTEEN, 0) + Sent(EIGHTEEN, 0));
            var recent := RecentMessages(Received(EIGHTEEN, 0), Sent(EIGHTEEN, 0), x => false, x => false);
            |all| == 18 && !Covers(recent, Remembered(LONG, EIGHTEEN, 0), Take(all, 18))
  {
    EighteenStream(18);
    var both := Received(EIGHTEEN, 0) + Sent(EIGHTEEN, 0);
    assert Sent(EIGHTEEN, 0) == [] && both == InboundStream(EIGHTEEN, 0, 18);
    NewestContents(both);
    SameSize(Newest(both), both);
    hide InboundStream, OutboundStream, Newest, RecentMessages, Remembered;
    RanksSevenAndEightAreMissing(EIGHTEEN, 0, x => false, x => false);
    assert Newest(both)[6] in Take(Newest(both), 18);
  }

  lemma SameSize<T>(a: seq<T>, b: seq<T>)
    requires multiset(a) == multiset(b)
    ensures |a| == |b|
  {
    assert |multiset(a)| == |a| && |multiset(b)| == |b|;
  }
}
