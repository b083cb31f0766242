/**
 What the two readers of a contact's history offer to a reply request (`automation/context.py` beside
 `automation/memory.py`): the recent messages, and the memory of older ones.

 The memory is cut from the whole history, the recent messages from the history without the message being answered,
 the mandatory messages and later automatic replies of other conversations. So the two can overlap. And the memory keeps
 of its sources, oldest first, only as many as fit in it; so messages between the two can be missing.
 */
module Readers {
  import opened History

  /** The messages that a query keeps. */
  function Visible<T>(s: seq<Stamped<T>>, hides: T -> bool): seq<Stamped<T>> {
    if s == [] then []
    else (if hides(s[0].item) then [] else [s[0]]) + Visible(s[1..], hides)
  }

  /** One stream of `_recent_blocks`: the query leaves out what `hides` says and stops at 12; the loop drops mandatory
      messages once more. */
  function RecentStream<T>(s: seq<Stamped<T>>, hides: T -> bool, mandatory: T -> bool): seq<Stamped<T>> {
    Visible(Take(Newest(Visible(s, hides)), RECENT_MESSAGES * 2), mandatory)
  }

  /** `_recent_blocks`. */
  function RecentMessages<T>(inbound: seq<Stamped<T>>, outbound: seq<Stamped<T>>, hides: T -> bool,
                             mandatory: T -> bool): seq<Stamped<T>> {
    Take(Newest(RecentStream(inbound, hides, mandatory) + RecentStream(outbound, hides, mandatory)), RECENT_MESSAGES)
  }

  /** Mandatory messages are among those the queries leave out. */
  ghost predicate Leaves<T>(s: seq<Stamped<T>>, hides: T -> bool, mandatory: T -> bool) {
    forall x :: x in s && mandatory(x.item) ==> hides(x.item)
  }

  // ---------- filtering and sorting ----------

  lemma {:induction false} VisibleContents<T>(s: seq<Stamped<T>>, hides: T -> bool, x: Stamped<T>)
    ensures multiset(Visible(s, hides))[x] == if hides(x.item) then 0 else multiset(s)[x]
  {
    if s != [] {
      VisibleContents(s[1..], hides, x);
      assert s == [s[0]] + s[1..];
    }
  }

  lemma VisibleMember<T>(s: seq<Stamped<T>>, hides: T -> bool, x: Stamped<T>)
    ensures x in Visible(s, hides) <==> x in s && !hides(x.item)
  {
    VisibleContents(s, hides, x);
    assert x in Visible(s, hides) <==> x in multiset(Visible(s, hides));
    assert x in s <==> x in multiset(s);
  }

  lemma {:induction false} VisibleOfSum<T>(a: seq<Stamped<T>>, b: seq<Stamped<T>>, hides: T -> bool)
    ensures Visible(a + b, hides) == Visible(a, hides) + Visible(b, hides)
  {
    if a == [] {
      assert a + b == b;
    } else {
      assert (a + b)[1..] == a[1..] + b;
      VisibleOfSum(a[1..], b, hides);
    }
  }

  lemma {:induction false} NothingHidden<T>(s: seq<Stamped<T>>, hides: T -> bool)
    requires forall x :: x in s ==> !hides(x.item)
    ensures Visible(s, hides) == s
  {
    if s != [] {
      NothingHidden(s[1..], hides);
      assert s == [s[0]] + s[1..];
    }
  }

  lemma {:induction false} SomethingHidden<T>(s: seq<Stamped<T>>, hides: T -> bool)
    ensures |Visible(s, hides)| <= |s|
    ensures (exists x :: x in s && hides(x.item)) ==> |Visible(s, hides)| < |s|
  {
    if s != [] { SomethingHidden(s[1..], hides); }
  }

  lemma {:induction false} VisibleDescending<T>(s: seq<Stamped<T>>, hides: T -> bool)
    requires Descending(s)
    ensures Descending(Visible(s, hides))
  {
    if s != [] {
      VisibleDescending(s[1..], hides);
      var rest := Visible(s[1..], hides);
      forall i | 0 <= i < |rest| ensures s[0].at > rest[i].at {
        assert rest[i] in rest;
        VisibleMember(s[1..], hides, rest[i]);
      }
      if !hides(s[0].item) { DescendingCons(s[0], rest); } else { assert Visible(s, hides) == rest; }
    }
  }

  lemma {:induction false} VisibleDistinct<T>(s: seq<Stamped<T>>, hides: T -> bool)
    requires DistinctTimes(s)
    ensures DistinctTimes(Visible(s, hides))
  {
    if s != [] {
      VisibleDistinct(s[1..], hides);
      var rest := Visible(s[1..], hides);
      forall i | 0 <= i < |rest| ensures rest[i].at != s[0].at {
        assert rest[i] in rest;
        VisibleMember(s[1..], hides, rest[i]);
      }
    }
  }

  /** Filtering before the sort or after it is the same. */
  lemma NewestVisible<T>(s: seq<Stamped<T>>, hides: T -> bool)
    requires DistinctTimes(s)
    ensures Newest(Visible(s, hides)) == Visible(Newest(s), hides)
  {
    NewestDescending(s);
    VisibleDistinct(s, hides);
    NewestDescending(Visible(s, hides));
    VisibleDescending(Newest(s), hides);
    VisibleOfSorted(s, hides);
    DescendingIsUnique(Newest(Visible(s, hides)), Visible(Newest(s), hides));
  }

  ghost function OneIfVisible<T>(x: Stamped<T>, hides: T -> bool): multiset<Stamped<T>> {
    if hides(x.item) then multiset{} else multiset{x}
  }

  lemma VisibleOfCons<T>(x: Stamped<T>, s: seq<Stamped<T>>, hides: T -> bool)
    ensures multiset(Visible([x] + s, hides)) == OneIfVisible(x, hides) + multiset(Visible(s, hides))
  {
    assert ([x] + s)[1..] == s;
  }

  lemma {:induction false} VisibleOfInsert<T>(x: Stamped<T>, s: seq<Stamped<T>>, hides: T -> bool)
    ensures multiset(Visible(Insert(x, s), hides)) == OneIfVisible(x, hides) + multiset(Visible(s, hides))
  {
    hide Visible, OneIfVisible;
    if s == [] || x.at >= s[0].at {
      VisibleOfCons(x, s, hides);
    } else {
      VisibleOfInsert(x, s[1..], hides);
      VisibleOfCons(s[0], Insert(x, s[1..]), hides);
      VisibleOfCons(s[0], s[1..], hides);
      assert s == [s[0]] + s[1..];
    }
  }

  lemma {:induction false} VisibleOfSorted<T>(s: seq<Stamped<T>>, hides: T -> bool)
    ensures multiset(Visible(Newest(s), hides)) == multiset(Visible(s, hides))
  {
    hide Visible, Insert, OneIfVisible;
    if s != [] {
      VisibleOfSorted(s[1..], hides);
      VisibleOfInsert(s[0], Newest(s[1..]), hides);
      VisibleOfCons(s[0], s[1..], hides);
      assert s == [s[0]] + s[1..];
    }
  }

  /** The second look for mandatory messages finds none. */
  lemma SecondLookIsIdle<T>(s: seq<Stamped<T>>, hides: T -> bool, mandatory: T -> bool)
    requires DistinctTimes(s) && Leaves(s, hides, mandatory)
    ensures RecentStream(s, hides, mandatory) == Take(Newest(Visible(s, hides)), 12)
  {
    hide Newest, Visible;
    VisibleDistinct(s, hides);
    NewestDescending(Visible(s, hides));
    var sorted := Newest(Visible(s, hides));
    forall x | x in Take(sorted, 12) ensures !mandatory(x.item) {
      assert x in sorted;
      assert x in multiset(sorted);
      VisibleMember(s, hides, x);
    }
    NothingHidden(Take(sorted, 12), mandatory);
  }

  // ---------- each reader over its own history ----------

  /** The recent messages are the six newest of what the queries keep. */
  lemma RecentAreNewestVisible<T>(inbound: seq<Stamped<T>>, outbound: seq<Stamped<T>>, hides: T -> bool,
                                  mandatory: T -> bool)
    requires DistinctTimes(inbound + outbound) && Leaves(inbound + outbound, hides, mandatory)
    ensures RecentMessages(inbound, outbound, hides, mandatory) == Take(Visible(Newest(inbound + outbound), hides), 6)
  {
    PartsDistinct(inbound, outbound);
    PartsLeave(inbound, outbound, hides, mandatory);
    hide Newest, Visible, Take, RecentStream, DistinctTimes;
    SecondLookIsIdle(inbound, hides, mandatory);
    SecondLookIsIdle(outbound, hides, mandatory);
    VisibleOfSum(inbound, outbound, hides);
    VisibleDistinct(inbound + outbound, hides);
    LimitedQueriesLoseNothing(Visible(inbound, hides), Visible(outbound, hides), 12, 6);
    NewestVisible(inbound + outbound, hides);
  }

  lemma PartsLeave<T>(a: seq<Stamped<T>>, b: seq<Stamped<T>>, hides: T -> bool, mandatory: T -> bool)
    requires Leaves(a + b, hides, mandatory)
    ensures Leaves(a, hides, mandatory) && Leaves(b, hides, mandatory)
  {
    forall x | x in a || x in b ensures x in a + b {}
  }

  // ---------- the two readers together ----------

  ghost predicate Disjoint<T>(a: seq<T>, b: seq<T>) {
    forall x :: x in a ==> x !in b
  }

  ghost predicate Covers<T>(a: seq<T>, b: seq<T>, whole: seq<T>) {
    forall x :: x in whole ==> x in a || x in b
  }

  /** Both together show whatever of `whole` the queries keep. */
  ghost predicate MissesOnlyHidden<T>(a: seq<Stamped<T>>, b: seq<Stamped<T>>, whole: seq<Stamped<T>>,
                                      hides: T -> bool) {
    forall x :: x in whole && !hides(x.item) ==> x in a || x in b
  }

  ghost predicate NoneHidden<T>(s: seq<Stamped<T>>, hides: T -> bool) {
    forall x :: x in s ==> !hides(x.item)
  }

  ghost predicate AllHidden<T>(s: seq<Stamped<T>>, hides: T -> bool) {
    forall x :: x in s ==> hides(x.item)
  }

  lemma PositionsAreDistinct<T>(s: seq<Stamped<T>>, n: nat)
    requires Descending(s) && n <= |s|
    ensures Disjoint(s[..n], s[n..])
  {
  }

  /** The messages after the six newest. */
  function Rest<T>(all: seq<T>): seq<T> {
    all[|Take(all, 6)|..]
  }

  lemma TopAndRest<T>(all: seq<T>)
    ensures |Take(all, 6)| <= 6 && all == Take(all, 6) + Rest(all)
    ensures Slice(all, 6, 18) == Take(Rest(all), 12)
    ensures Take(all, 18) == Take(all, 6) + Slice(all, 6, 18)
    ensures |Take(all, 6)| < 6 ==> Rest(all) == []
  {
  }

  lemma TakeOfSum<T>(a: seq<T>, b: seq<T>, n: nat)
    requires |a| <= n
    ensures Take(a + b, n) == a + Take(b, n - |a|)
  {
  }

  /** The cut of the visible messages, in terms of the six newest and the rest. */
  lemma CutOfVisible<T>(all: seq<Stamped<T>>, hides: T -> bool)
    ensures |Visible(Take(all, 6), hides)| <= 6
    ensures Take(Visible(all, hides), 6)
            == Visible(Take(all, 6), hides) + Take(Visible(Rest(all), hides), 6 - |Visible(Take(all, 6), hides)|)
  {
    hide Take, Rest, Visible;
    TopAndRest(all);
    VisibleOfSum(Take(all, 6), Rest(all), hides);
    SomethingHidden(Take(all, 6), hides);
    TakeOfSum(Visible(Take(all, 6), hides), Visible(Rest(all), hides), 6);
  }

  /** The first visible message after the six newest is in the memory's twelve as soon as any of those is visible. */
  lemma {:induction false} FirstVisibleIsEarly<T>(s: seq<Stamped<T>>, n: nat, hides: T -> bool)
    ensures AllHidden(Take(s, n), hides) || (Visible(s, hides) != [] && Visible(s, hides)[0] in Take(s, n))
  {
    if n > 0 && s != [] {
      TakeRest(s, n);
      assert Take(s, n) == [s[0]] + Take(s[1..], n - 1);
      if hides(s[0].item) { FirstVisibleIsEarly(s[1..], n - 1, hides); }
    }
  }

  /** Of the 18 newest messages none that the queries keep is missing from both. */
  lemma NothingVisibleIsSkipped<T>(all: seq<Stamped<T>>, hides: T -> bool)
    ensures MissesOnlyHidden(Take(Visible(all, hides), 6), Slice(all, 6, 18), Take(all, 18), hides)
  {
    hide Take, Rest, Visible, Slice;
    TopAndRest(all);
    CutOfVisible(all, hides);
    forall x | x in Take(all, 18) && !hides(x.item)
      ensures x in Take(Visible(all, hides), 6) || x in Slice(all, 6, 18)
    {
      VisibleMember(Take(all, 6), hides, x);
      assert x in Take(all, 6) || x in Slice(all, 6, 18);
    }
  }

  lemma TopIsNotInMemory<T>(all: seq<Stamped<T>>)
    requires Descending(all)
    ensures Disjoint(Take(all, 6), Slice(all, 6, 18))
  {
    var top := Take(all, 6);
    assert Slice(all, 6, 18) == Take(all, 18)[|top|..];
    PositionsAreDistinct(Take(all, 18), |top|);
    assert Take(all, 18)[..|top|] == top;
  }

  /** The recent messages are among those the queries keep. */
  lemma RecentAreVisible<T>(all: seq<Stamped<T>>, hides: T -> bool)
    ensures forall x :: x in Take(Visible(all, hides), 6) ==> x in all && !hides(x.item)
  {
    hide Visible;
    forall x | x in Take(Visible(all, hides), 6) ensures x in all && !hides(x.item) {
      assert x in Visible(all, hides);
      VisibleMember(all, hides, x);
    }
  }

  lemma AllOfTopIsShown<T>(all: seq<Stamped<T>>, hides: T -> bool)
    requires NoneHidden(Take(all, 6), hides)
    ensures Take(Visible(all, hides), 6) == Take(all, 6)
  {
    hide Take, Rest, Visible;
    TopAndRest(all);
    CutOfVisible(all, hides);
    NothingHidden(Take(all, 6), hides);
    TakeNone(Visible(Rest(all), hides));
    if Rest(all) == [] { NothingHidden(Rest(all), hides); TakeOfNothing<Stamped<T>>(6 - |Take(all, 6)|); }
  }

  // ---------- a memory that keeps only the oldest of its sources ----------

  /** The newest of `older` that did not fit, and the `kept` oldest that did. */
  function Dropped<T>(older: seq<T>, kept: nat): seq<T>
    requires kept <= |older|
  {
    older[..|older| - kept]
  }

  function Kept<T>(older: seq<T>, kept: nat): seq<T>
    requires kept <= |older|
  {
    older[|older| - kept..]
  }

  /** What follows the memory's twelve. */
  function Beyond<T>(all: seq<T>): seq<T> {
    Rest(all)[|Slice(all, 6, 18)|..]
  }

  lemma Layers<T>(all: seq<T>, kept: nat)
    requires kept <= |Slice(all, 6, 18)|
    ensures var older := Slice(all, 6, 18);
            Rest(all) == Dropped(older, kept) + Kept(older, kept) + Beyond(all)
    ensures Slice(all, 6, 18) == Dropped(Slice(all, 6, 18), kept) + Kept(Slice(all, 6, 18), kept)
    ensures kept == |Slice(all, 6, 18)| <==> Dropped(Slice(all, 6, 18), kept) == []
    ensures |Take(all, 6)| < 6 ==> Slice(all, 6, 18) == []
  {
  }

  lemma DroppedIsNotKept<T>(all: seq<Stamped<T>>, kept: nat)
    requires Descending(all) && kept <= |Slice(all, 6, 18)|
    ensures Disjoint(Dropped(Slice(all, 6, 18), kept), Kept(Slice(all, 6, 18), kept))
  {
    var older := Slice(all, 6, 18);
    assert forall i :: 0 <= i < |older| ==> older[i] == all[|Take(all, 6)| + i];
    PositionsAreDistinct(older, |older| - kept);
  }

  /** Of the 18 newest messages only kept ones that did not fit into the memory can be missing from both. */
  lemma OnlyDroppedAreMissing<T>(all: seq<Stamped<T>>, hides: T -> bool, kept: nat)
    requires kept <= |Slice(all, 6, 18)|
    ensures var older := Slice(all, 6, 18);
            var shown := Take(Visible(all, hides), 6) + Dropped(older, kept);
            MissesOnlyHidden(shown, Kept(older, kept), Take(all, 18), hides)
  {
    hide Take, Visible, Slice, Dropped, Kept;
    Layers(all, kept);
    NothingVisibleIsSkipped(all, hides);
  }

  lemma CoversAll<T>(all: seq<Stamped<T>>, hides: T -> bool)
    requires Descending(all)
    ensures Covers(Take(Visible(all, hides), 6), Slice(all, 6, 18), Take(all, 18)) <==> NoneHidden(Take(all, 6), hides)
  {
    hide Take, Rest, Visible, Slice, Descending;
    NothingVisibleIsSkipped(all, hides);
    TopAndRest(all);
    TopIsNotInMemory(all);
    RecentAreVisible(all, hides);
    if NoneHidden(Take(all, 6), hides) { AllOfTopIsShown(all, hides); }
  }

  /** With nothing left out of the recent ones, sources that do not fit are shown by neither reader. */
  lemma DroppedAreMissing<T>(all: seq<Stamped<T>>, hides: T -> bool, kept: nat)
    requires Descending(all) && kept <= |Slice(all, 6, 18)| && NoneHidden(Take(all, 6), hides)
    ensures forall x :: x in Dropped(Slice(all, 6, 18), kept) ==>
              x in Take(all, 18) && x !in Take(Visible(all, hides), 6) && x !in Kept(Slice(all, 6, 18), kept)
  {
    hide Take, Rest, Visible, Slice, Descending, Dropped, Kept;
    TopAndRest(all);
    Layers(all, kept);
    DroppedIsNotKept(all, kept);
    TopIsNotInMemory(all);
    AllOfTopIsShown(all, hides);
  }

  lemma MoreCovers<T>(a: seq<T>, b: seq<T>, b': seq<T>, whole: seq<T>)
    requires forall x :: x in b ==> x in b'
    ensures Covers(a, b, whole) ==> Covers(a, b', whole)
  {
  }

  lemma CoversExactly<T>(all: seq<Stamped<T>>, hides: T -> bool, kept: nat)
    requires Descending(all) && kept <= |Slice(all, 6, 18)|
    ensures Covers(Take(Visible(all, hides), 6), Kept(Slice(all, 6, 18), kept), Take(all, 18)) <==>
              NoneHidden(Take(all, 6), hides) && kept == |Slice(all, 6, 18)|
  {
    hide Take, Rest, Visible, Slice, Descending, Dropped, Kept;
    var recent, older := Take(Visible(all, hides), 6), Slice(all, 6, 18);
    CoversAll(all, hides);
    Layers(all, kept);
    if Dropped(older, kept) == [] {
      assert Kept(older, kept) == older;
    } else {
      assert Dropped(older, kept)[0] in Dropped(older, kept);
      if NoneHidden(Take(all, 6), hides) { DroppedAreMissing(all, hides, kept); }
      MoreCovers(recent, Kept(older, kept), older, Take(all, 18));
    }
  }

  /** The recent messages reach into the memory exactly when more of the six newest are left out than messages that the
      queries keep lie between the two, and the memory holds one that they keep. */
  lemma DisjointExactly<T>(all: seq<Stamped<T>>, hides: T -> bool, kept: nat)
    requires Descending(all) && kept <= |Slice(all, 6, 18)|
    ensures var top, older := Take(all, 6), Slice(all, 6, 18);
            Disjoint(Take(Visible(all, hides), 6), Kept(older, kept)) <==>
              || |top| - |Visible(top, hides)| <= |Visible(Dropped(older, kept), hides)|
              || AllHidden(Kept(older, kept), hides)
  {
    hide Take, Rest, Visible, Slice, Descending, Dropped, Kept;
    var top, older := Take(all, 6), Slice(all, 6, 18);
    Layers(all, kept);
    TopAndRest(all);
    CutOfVisible(all, hides);
    TopIsNotInMemory(all);
    VisibleAreMembers(top, hides);
    ReachExactly(all, hides, kept);
  }

  lemma VisibleAreMembers<T>(s: seq<Stamped<T>>, hides: T -> bool)
    ensures forall x :: x in Visible(s, hides) ==> x in s && !hides(x.item)
  {
    forall x | x in Visible(s, hides) ensures x in s && !hides(x.item) { VisibleMember(s, hides, x); }
  }

  /** The part of the recent messages that comes from after the six newest. */
  lemma ReachExactly<T>(all: seq<Stamped<T>>, hides: T -> bool, kept: nat)
    requires Descending(all) && kept <= |Slice(all, 6, 18)| && |Visible(Take(all, 6), hides)| <= 6
    ensures var top, older := Take(all, 6), Slice(all, 6, 18);
            Disjoint(Take(Visible(Rest(all), hides), 6 - |Visible(top, hides)|), Kept(older, kept)) <==>
              || |top| - |Visible(top, hides)| <= |Visible(Dropped(older, kept), hides)|
              || AllHidden(Kept(older, kept), hides)
  {
    hide Take, Rest, Visible, Slice, Descending, Dropped, Kept, Beyond;
    var top, older := Take(all, 6), Slice(all, 6, 18);
    var reach := 6 - |Visible(top, hides)|;
    Layers(all, kept);
    TopAndRest(all);
    var dropped, memory := Dropped(older, kept), Kept(older, kept);
    VisibleOfSum(dropped + memory, Beyond(all), hides);
    VisibleOfSum(dropped, memory, hides);
    VisibleAreMembers(dropped, hides);
    VisibleAreMembers(Rest(all), hides);
    DroppedIsNotKept(all, kept);
    var shown := Take(Visible(Rest(all), hides), reach);
    TakenMembers(Visible(Rest(all), hides), reach);
    if older == [] {
      assert memory == [] && AllHidden(memory, hides);
    } else if reach <= |Visible(dropped, hides)| {
      TakeOfPrefix(Visible(dropped, hides), Visible(memory, hides) + Visible(Beyond(all), hides), reach);
      assert Visible(Rest(all), hides)
             == Visible(dropped, hides) + (Visible(memory, hides) + Visible(Beyond(all), hides));
    } else if !AllHidden(memory, hides) {
      SomethingVisible(memory, hides);
      var x := Visible(memory, hides)[0];
      assert Visible(Rest(all), hides)[|Visible(dropped, hides)|] == x;
      TakeHas(Visible(Rest(all), hides), reach, |Visible(dropped, hides)|);
      VisibleAreMembers(memory, hides);
      assert x in shown && x in memory;
    }
  }

  lemma TakenMembers<T>(s: seq<T>, n: nat)
    ensures forall x :: x in Take(s, n) ==> x in s
  {
  }

  lemma TakeOfPrefix<T>(a: seq<T>, b: seq<T>, n: nat)
    requires n <= |a|
    ensures forall x :: x in Take(a + b, n) ==> x in a
  {
    assert Take(a + b, n) == a[..n];
  }

  lemma TakeHas<T>(s: seq<T>, n: nat, i: nat)
    requires i < n && i < |s|
    ensures s[i] in Take(s, n)
  {
    assert Take(s, n)[i] == s[i];
  }

  lemma SomethingVisible<T>(s: seq<Stamped<T>>, hides: T -> bool)
    requires !AllHidden(s, hides)
    ensures Visible(s, hides) != []
  {
    var x :| x in s && !hides(x.item);
    VisibleMember(s, hides, x);
  }

  lemma {:induction false} ReverseMembers<T>(s: seq<T>)
    ensures forall x :: x in Reverse(s) <==> x in s
  {
    if s != [] { ReverseMembers(s[1..]); }
  }

  /** The order of the memory does not matter to what it shows. */
  lemma ReversedMemory<T>(a: seq<Stamped<T>>, m: seq<Stamped<T>>, whole: seq<Stamped<T>>, hides: T -> bool)
    ensures Disjoint(a, Reverse(m)) <==> Disjoint(a, m)
    ensures MissesOnlyHidden(a, Reverse(m), whole, hides) <==> MissesOnlyHidden(a, m, whole, hides)
    ensures Covers(a, Reverse(m), whole) <==> Covers(a, m, whole)
    ensures AllHidden(Reverse(m), hides) <==> AllHidden(m, hides)
  {
    ReverseMembers(m);
  }

  lemma {:induction false} ReverseOfSum<T>(a: seq<T>, b: seq<T>)
    ensures Reverse(a + b) == Reverse(b) + Reverse(a) && |Reverse(a)| == |a|
  {
    if a == [] {
      assert a + b == b;
    } else {
      assert (a + b)[1..] == a[1..] + b;
      ReverseOfSum(a[1..], b);
    }
  }

  /** Cutting the sources, oldest first, drops the newest of them. */
  lemma KeptIsPrefix<T>(older: seq<T>, kept: nat)
    requires kept <= |older|
    ensures |Reverse(older)| == |older| && Reverse(older)[..kept] == Reverse(Kept(older, kept))
  {
    assert older == Dropped(older, kept) + Kept(older, kept);
    ReverseOfSum(Dropped(older, kept), Kept(older, kept));
    ReverseOfSum(older, []);
    ReverseOfSum(Kept(older, kept), []);
  }

  /** What the readers offer when the memory keeps the `kept` oldest of its sources: each is exact over its own history,
      and of the 18 newest messages they miss, besides those left out of the recent ones, only sources that were not
      kept. They cover the 18 newest if and only if none of the six newest is left out and all sources are kept; and
      they are disjoint if and only if no more of the six newest are left out than sources not kept make up for, or the
      memory holds nothing but messages left out as well. */
  lemma ReadersCoverTheNewest<T>(inbound: seq<Stamped<T>>, outbound: seq<Stamped<T>>, hides: T -> bool,
                                 mandatory: T -> bool, kept: nat)
    requires DistinctTimes(inbound + outbound) && Leaves(inbound + outbound, hides, mandatory)
    requires kept <= |HistorySources(inbound, outbound)|
    ensures var all := Newest(inbound + outbound);
            var top, older := Take(all, 6), Slice(all, 6, 18);
            var recent := RecentMessages(inbound, outbound, hides, mandatory);
            var memory := HistorySources(inbound, outbound)[..kept];
            && |HistorySources(inbound, outbound)| == |older|
            && recent == Take(Visible(all, hides), 6)
            && memory == Reverse(Kept(older, kept))
            && MissesOnlyHidden(recent + Dropped(older, kept), memory, Take(all, 18), hides)
            && (Covers(recent, memory, Take(all, 18)) <==> NoneHidden(top, hides) && kept == |older|)
            && (Disjoint(recent, memory) <==>
                  |top| - |Visible(top, hides)| <= |Visible(Dropped(older, kept), hides)| || AllHidden(memory, hides))
  {
    hide Newest, Visible, Take, Slice, Reverse, RecentMessages, HistorySources, DistinctTimes, Descending, Leaves, Kept,
         Dropped;
    var all := Newest(inbound + outbound);
    var recent, older := RecentMessages(inbound, outbound, hides, mandatory), Slice(all, 6, 18);
    NewestDescending(inbound + outbound);
    RecentAreNewestVisible(inbound, outbound, hides, mandatory);
    SourcesAreRanks7To18(inbound, outbound);
    ReverseOfSum(older, []);
    KeptIsPrefix(older, kept);
    ReversedMemory(recent, Kept(older, kept), Take(all, 18), hides);
    ReversedMemory(recent + Dropped(older, kept), Kept(older, kept), Take(all, 18), hides);
    OnlyDroppedAreMissing(all, hides, kept);
    CoversExactly(all, hides, kept);
    DisjointExactly(all, hides, kept);
  }

  // ---------- the ordinary case ----------

  /** Message `n` was received or sent at instant `n`. */
  function Message(n: int): Stamped<int> {
    Stamped(n, n)
  }

  const RECEIVED := [Message(8), Message(6), Message(4), Message(2)]
  const SENT := [Message(7), Message(5), Message(3), Message(1)]
  const ALL := [Message(8), Message(7)] + SHOWN
  const SHOWN := [Message(6), Message(5), Message(4), Message(3), Message(2), Message(1)]

  /** Eight messages; the newest is being answered and the one before it is its parent. Both are mandatory. */
  predicate AnsweredOrParent(n: int) {
    n == 8 || n == 7
  }

  lemma AllIsNewest()
    ensures DistinctTimes(RECEIVED + SENT) && Newest(RECEIVED + SENT) == ALL
  {
    hide Newest;
    SortedStays(RECEIVED);
    SortedStays(SENT);
    NewestIsMerge(RECEIVED, SENT);
    MergedTail();
    assert Merge(RECEIVED, SENT) == [Message(8)] + Merge(RECEIVED[1..], SENT);
    assert Merge(RECEIVED[1..], SENT) == [Message(7)] + Merge(RECEIVED[1..], SENT[1..]);
  }

  lemma MergedTail()
    ensures Merge(RECEIVED[1..], SENT[1..]) == SHOWN
  {
    assert RECEIVED[1..] == [Message(6), Message(4), Message(2)] && SENT[1..] == [Message(5), Message(3), Message(1)];
    assert RECEIVED[2..] == [Message(4), Message(2)] && SENT[2..] == [Message(3), Message(1)];
    assert RECEIVED[3..] == [Message(2)] && SENT[3..] == [Message(1)];
    assert Merge(RECEIVED[3..], SENT[3..]) == [Message(2), Message(1)];
    assert Merge(RECEIVED[2..], SENT[2..]) == [Message(4), Message(3), Message(2), Message(1)];
  }

  lemma ShownIsVisible()
    ensures Visible(ALL, AnsweredOrParent) == SHOWN
  {
    hide Visible;
    var answered := [Message(8), Message(7)];
    assert ALL == answered + SHOWN;
    VisibleOfSum(answered, SHOWN, AnsweredOrParent);
    NothingHidden(SHOWN, AnsweredOrParent);
    AllAreHidden(answered, AnsweredOrParent);
  }

  lemma {:induction false} AllAreHidden<T>(s: seq<Stamped<T>>, hides: T -> bool)
    requires AllHidden(s, hides)
    ensures Visible(s, hides) == []
  {
    if s != [] { AllAreHidden(s[1..], hides); }
  }

  /** Answering an ordinary message, the two oldest of eight messages are shown twice. */
  lemma ReadersOrdinarilyOverlap()
    ensures RecentMessages(RECEIVED, SENT, AnsweredOrParent, AnsweredOrParent) == SHOWN
    ensures HistorySources(RECEIVED, SENT) == [Message(1), Message(2)]
    ensures !Disjoint(SHOWN, [Message(1), Message(2)])
  {
    hide Newest, RecentMessages, HistorySources, Visible, DistinctTimes;
    AllIsNewest();
    RecentAreNewestVisible(RECEIVED, SENT, AnsweredOrParent, AnsweredOrParent);
    SourcesAreRanks7To18(RECEIVED, SENT);
    ShownIsVisible();
    assert Slice(ALL, 6, 18) == [Message(2), Message(1)];
    assert [Message(2), Message(1)][1..] == [Message(1)] && [Message(1)][1..] == [];
    assert Message(1) in SHOWN;
  }
}
