/**
 Limited queries over a contact's history (`automation/memory.py`, `automation/context.py`): each stream is read
 only up to a limit, then merged, sorted and cut again. With distinct timestamps nothing is lost.
 */
module History {

  const RECENT_MESSAGES := 6
  const MAX_MEMORY_SOURCES := 12

  datatype Stamped<T> = Stamped(at: int, item: T)

  // ---------- sorting, newest first ----------

  function Insert<T>(x: Stamped<T>, s: seq<Stamped<T>>): seq<Stamped<T>> {
    if s == [] || x.at >= s[0].at then [x] + s else [s[0]] + Insert(x, s[1..])
  }

  /** `order_by` on descending time; insertion keeps ties in their order. */
  function Newest<T>(s: seq<Stamped<T>>): seq<Stamped<T>> {
    if s == [] then [] else Insert(s[0], Newest(s[1..]))
  }

  /** The elements of one instant, in their order. */
  function At<T>(s: seq<Stamped<T>>, at: int): seq<Stamped<T>> {
    if s == [] then [] else (if s[0].at == at then [s[0]] else []) + At(s[1..], at)
  }

  lemma {:induction false} InsertKeepsTies<T>(x: Stamped<T>, s: seq<Stamped<T>>, at: int)
    ensures At(Insert(x, s), at) == At([x], at) + At(s, at)
  {
    if s != [] {
      if x.at >= s[0].at {
        assert ([x] + s)[1..] == s;
      } else {
        InsertKeepsTies(x, s[1..], at);
        assert ([s[0]] + Insert(x, s[1..]))[1..] == Insert(x, s[1..]);
      }
    }
  }

  /** Elements of one instant keep their order. */
  lemma {:induction false} NewestKeepsTies<T>(s: seq<Stamped<T>>, at: int)
    ensures At(Newest(s), at) == At(s, at)
  {
    if s != [] {
      NewestKeepsTies(s[1..], at);
      InsertKeepsTies(s[0], Newest(s[1..]), at);
    }
  }

  function Take<T>(s: seq<T>, n: nat): seq<T> {
    if n <= |s| then s[..n] else s
  }

  /** A Python slice `s[from:to]`. */
  function Slice<T>(s: seq<T>, from: nat, to: nat): seq<T>
    requires from <= to
  {
    Take(s, to)[|Take(s, from)|..]
  }

  ghost predicate Descending<T>(s: seq<Stamped<T>>) {
    forall i, j :: 0 <= i < j < |s| ==> s[i].at > s[j].at
  }

  ghost predicate DistinctTimes<T>(s: seq<Stamped<T>>) {
    forall i, j :: 0 <= i < j < |s| ==> s[i].at != s[j].at
  }

  // ---------- sorting is canonical ----------

  lemma {:induction false} InsertContents<T>(x: Stamped<T>, s: seq<Stamped<T>>)
    ensures multiset(Insert(x, s)) == multiset(s) + multiset{x}
  {
    if s != [] {
      assert s == [s[0]] + s[1..];
      InsertContents(x, s[1..]);
    }
  }

  lemma {:induction false} InsertDescending<T>(x: Stamped<T>, s: seq<Stamped<T>>)
    requires Descending(s) && forall i :: 0 <= i < |s| ==> s[i].at != x.at
    ensures Descending(Insert(x, s))
  {
    if s != [] && x.at < s[0].at {
      InsertDescending(x, s[1..]);
      var rest := Insert(x, s[1..]);
      InsertContents(x, s[1..]);
      forall i | 0 <= i < |rest| ensures s[0].at > rest[i].at {
        assert rest[i] in multiset(rest);
        assert rest[i] == x || rest[i] in s[1..];
      }
      DescendingCons(s[0], rest);
    } else if s != [] {
      DescendingCons(x, s);
    }
  }

  lemma DescendingCons<T>(x: Stamped<T>, s: seq<Stamped<T>>)
    requires Descending(s) && forall i :: 0 <= i < |s| ==> x.at > s[i].at
    ensures Descending([x] + s)
  {
  }

  lemma {:induction false} NewestDescending<T>(s: seq<Stamped<T>>)
    requires DistinctTimes(s)
    ensures Descending(Newest(s)) && multiset(Newest(s)) == multiset(s)
  {
    if s != [] {
      NewestDescending(s[1..]);
      var rest := Newest(s[1..]);
      forall i | 0 <= i < |rest| ensures rest[i].at != s[0].at {
        assert rest[i] in multiset(rest);
        assert rest[i] in s[1..];
      }
      InsertDescending(s[0], rest);
      InsertContents(s[0], rest);
      assert s == [s[0]] + s[1..];
    }
  }

  lemma SameHead<T>(a: seq<Stamped<T>>, b: seq<Stamped<T>>)
    requires Descending(a) && Descending(b) && multiset(a) == multiset(b) && a != []
    ensures b != [] && a[0] == b[0]
  {
    assert a[0] in multiset(b);
    assert a[0] in b;
    assert b[0] in multiset(a);
    assert b[0] in a;
  }

  lemma SameRest<T>(a: seq<T>, b: seq<T>)
    requires a != [] && b != [] && a[0] == b[0] && multiset(a) == multiset(b)
    ensures multiset(a[1..]) == multiset(b[1..])
  {
    assert a == [a[0]] + a[1..] && b == [b[0]] + b[1..];
    assert multiset(a[1..]) == multiset(a) - multiset{a[0]};
    assert multiset(b[1..]) == multiset(b) - multiset{b[0]};
  }

  lemma {:induction false} DescendingIsUnique<T>(a: seq<Stamped<T>>, b: seq<Stamped<T>>)
    requires Descending(a) && Descending(b) && multiset(a) == multiset(b)
    ensures a == b
  {
    if a != [] {
      SameHead(a, b);
      SameRest(a, b);
      DescendingIsUnique(a[1..], b[1..]);
      assert a == [a[0]] + a[1..] && b == [b[0]] + b[1..];
    } else if b != [] {
      SameHead(b, a);
    }
  }

  // ---------- merging two sorted streams ----------

  function Merge<T>(a: seq<Stamped<T>>, b: seq<Stamped<T>>): seq<Stamped<T>>
    decreases |a| + |b|
  {
    if a == [] then b
    else if b == [] then a
    else if a[0].at > b[0].at then [a[0]] + Merge(a[1..], b)
    else [b[0]] + Merge(a, b[1..])
  }

  lemma {:induction false} MergeContents<T>(a: seq<Stamped<T>>, b: seq<Stamped<T>>)
    ensures multiset(Merge(a, b)) == multiset(a) + multiset(b)
    decreases |a| + |b|
  {
    if a != [] && b != [] {
      assert a == [a[0]] + a[1..] && b == [b[0]] + b[1..];
      if a[0].at > b[0].at { MergeContents(a[1..], b); } else { MergeContents(a, b[1..]); }
    }
  }

  lemma {:induction false} MergeDescending<T>(a: seq<Stamped<T>>, b: seq<Stamped<T>>)
    requires Descending(a) && Descending(b) && DistinctTimes(a + b)
    ensures Descending(Merge(a, b))
    decreases |a| + |b|
  {
    if a != [] && b != [] {
      assert (a + b)[0] == a[0] && (a + b)[|a|] == b[0];
      if a[0].at > b[0].at {
        assert a[1..] + b == (a + b)[1..];
        MergeDescending(a[1..], b);
        HeadFirst(a[0], a[1..], b);
      } else {
        RestDistinct(a, b);
        MergeDescending(a, b[1..]);
        HeadFirst(b[0], a, b[1..]);
      }
    }
  }

  lemma RestDistinct<T>(a: seq<Stamped<T>>, b: seq<Stamped<T>>)
    requires DistinctTimes(a + b) && b != []
    ensures DistinctTimes(a + b[1..])
  {
    var s, t := a + b, a + b[1..];
    forall i, j | 0 <= i < j < |t| ensures t[i].at != t[j].at {
      assert t[i] == s[if i < |a| then i else i + 1] && t[j] == s[if j < |a| then j else j + 1];
    }
  }

  lemma HeadFirst<T>(x: Stamped<T>, a: seq<Stamped<T>>, b: seq<Stamped<T>>)
    requires Descending(Merge(a, b))
    requires forall i :: 0 <= i < |a| ==> x.at > a[i].at
    requires forall i :: 0 <= i < |b| ==> x.at > b[i].at
    ensures Descending([x] + Merge(a, b))
  {
    var m := Merge(a, b);
    MergeContents(a, b);
    forall i | 0 <= i < |m| ensures x.at > m[i].at {
      assert m[i] in multiset(m);
      assert m[i] in a || m[i] in b;
    }
  }

  /** Sorting the two streams together is merging them sorted. */
  lemma NewestIsMerge<T>(xs: seq<Stamped<T>>, ys: seq<Stamped<T>>)
    requires DistinctTimes(xs + ys)
    ensures Newest(xs + ys) == Merge(Newest(xs), Newest(ys))
  {
    PartsDistinct(xs, ys);
    NewestDescending(xs + ys);
    NewestDescending(xs);
    NewestDescending(ys);
    SortedPartsDistinct(xs, ys, Newest(xs), Newest(ys));
    MergeContents(Newest(xs), Newest(ys));
    MergeDescending(Newest(xs), Newest(ys));
    assert multiset(xs + ys) == multiset(xs) + multiset(ys);
    DescendingIsUnique(Newest(xs + ys), Merge(Newest(xs), Newest(ys)));
  }

  lemma PartsDistinct<T>(xs: seq<Stamped<T>>, ys: seq<Stamped<T>>)
    requires DistinctTimes(xs + ys)
    ensures DistinctTimes(xs) && DistinctTimes(ys)
    ensures forall x, y :: x in xs && y in ys ==> x.at != y.at
  {
    var s := xs + ys;
    assert forall i :: 0 <= i < |xs| ==> xs[i] == s[i];
    assert forall i :: 0 <= i < |ys| ==> ys[i] == s[|xs| + i];
  }

  /** Descending streams that draw on `xs` and `ys` share no timestamp either. */
  lemma SortedPartsDistinct<T>(xs: seq<Stamped<T>>, ys: seq<Stamped<T>>, a: seq<Stamped<T>>, b: seq<Stamped<T>>)
    requires DistinctTimes(xs + ys) && Descending(a) && Descending(b)
    requires multiset(a) <= multiset(xs) && multiset(b) <= multiset(ys)
    ensures DistinctTimes(a + b)
  {
    PartsDistinct(xs, ys);
    forall i, j | 0 <= i < j < |a + b| ensures (a + b)[i].at != (a + b)[j].at {
      if i < |a| <= j {
        assert a[i] in multiset(a) && b[j - |a|] in multiset(b);
        assert a[i] in multiset(xs) && b[j - |a|] in multiset(ys);
        assert a[i] in xs && b[j - |a|] in ys;
      }
    }
  }

  // ---------- cutting early is safe ----------

  lemma {:induction false} MergeLength<T>(a: seq<Stamped<T>>, b: seq<Stamped<T>>)
    ensures |Merge(a, b)| == |a| + |b|
    decreases |a| + |b|
  {
    if a != [] && b != [] {
      if a[0].at > b[0].at { MergeLength(a[1..], b); } else { MergeLength(a, b[1..]); }
    }
  }

  lemma TakeRest<T>(s: seq<T>, n: nat)
    requires s != [] && n > 0
    ensures Take(s, n) != [] && Take(s, n)[0] == s[0] && Take(s, n)[1..] == Take(s[1..], n - 1)
  {
  }

  lemma TakeCons<T>(x: T, s: seq<T>, n: nat)
    requires n > 0
    ensures Take([x] + s, n) == [x] + Take(s, n - 1)
  {
  }

  lemma MergeWithNothing<T>(a: seq<Stamped<T>>, j: nat, n: nat)
    requires n <= j
    ensures Take(Take(a, j), n) == Take(a, n)
    ensures Merge(a, []) == a && Merge([], a) == a
  {
  }

  /** One side is empty. */
  lemma MergeOfOne<T>(a: seq<Stamped<T>>, b: seq<Stamped<T>>, j: nat, k: nat, n: nat)
    requires n <= j && n <= k && (a == [] || b == [])
    ensures Take(Merge(Take(a, j), Take(b, k)), n) == Take(Merge(a, b), n)
  {
    hide Take;
    TakeOfNothing<Stamped<T>>(j);
    TakeOfNothing<Stamped<T>>(k);
    MergeWithNothing(a, j, n);
    MergeWithNothing(b, k, n);
    MergeWithNothing(Take(a, j), j, n);
    MergeWithNothing(Take(b, k), k, n);
  }

  /** The head of the merge comes from `a`, or from `b`. */
  lemma MergeHead<T>(a: seq<Stamped<T>>, b: seq<Stamped<T>>, n: nat)
    requires a != [] && b != [] && n > 0
    ensures a[0].at > b[0].at ==> Take(Merge(a, b), n) == [a[0]] + Take(Merge(a[1..], b), n - 1)
    ensures a[0].at <= b[0].at ==> Take(Merge(a, b), n) == [b[0]] + Take(Merge(a, b[1..]), n - 1)
  {
    hide Take;
    if a[0].at > b[0].at { TakeCons(a[0], Merge(a[1..], b), n); } else { TakeCons(b[0], Merge(a, b[1..]), n); }
  }

  /** The first `n` of a merge need only the first `n` of each side. */
  lemma {:induction false} MergeOfPrefixes<T>(a: seq<Stamped<T>>, b: seq<Stamped<T>>, j: nat, k: nat, n: nat)
    requires n <= j && n <= k
    ensures Take(Merge(Take(a, j), Take(b, k)), n) == Take(Merge(a, b), n)
    decreases n
  {
    hide Take, Merge;
    if n == 0 {
      TakeNone(Merge(Take(a, j), Take(b, k)));
      TakeNone(Merge(a, b));
    } else if a == [] || b == [] {
      MergeOfOne(a, b, j, k, n);
    } else {
      TakeRest(a, j);
      TakeRest(b, k);
      MergeHead(a, b, n);
      MergeHead(Take(a, j), Take(b, k), n);
      if a[0].at > b[0].at {
        MergeOfPrefixes(a[1..], b, j - 1, k, n - 1);
      } else {
        MergeOfPrefixes(a, b[1..], j, k - 1, n - 1);
      }
    }
  }

  lemma TakeNone<T>(s: seq<T>)
    ensures Take(s, 0) == []
  {
  }

  lemma TakeOfNothing<T>(n: nat)
    ensures Take<T>([], n) == []
  {
  }

  /** What the code reads: both streams cut at `limit`, put together and sorted. */
  function LimitedHistory<T>(xs: seq<Stamped<T>>, ys: seq<Stamped<T>>, limit: nat): seq<Stamped<T>> {
    Newest(Take(Newest(xs), limit) + Take(Newest(ys), limit))
  }

  lemma SortedStays<T>(s: seq<Stamped<T>>)
    requires Descending(s)
    ensures Newest(s) == s
  {
    NewestDescending(s);
    DescendingIsUnique(Newest(s), s);
  }

  lemma PrefixContents<T>(s: seq<T>, n: nat)
    ensures multiset(Take(s, n)) <= multiset(s)
  {
    if n <= |s| { assert s == s[..n] + s[n..]; }
  }

  /** With distinct timestamps the newest `n` of the limited history are the newest `n` of all of it. */
  lemma LimitedQueriesLoseNothing<T>(xs: seq<Stamped<T>>, ys: seq<Stamped<T>>, limit: nat, n: nat)
    requires DistinctTimes(xs + ys) && n <= limit
    ensures Take(LimitedHistory(xs, ys, limit), n) == Take(Newest(xs + ys), n)
  {
    PartsDistinct(xs, ys);
    NewestDescending(xs);
    NewestDescending(ys);
    var a, b := Newest(xs), Newest(ys);
    PrefixContents(a, limit);
    PrefixContents(b, limit);
    SortedPartsDistinct(xs, ys, Take(a, limit), Take(b, limit));
    NewestIsMerge(Take(a, limit), Take(b, limit));
    SortedStays(Take(a, limit));
    SortedStays(Take(b, limit));
    NewestIsMerge(xs, ys);
    MergeOfPrefixes(a, b, limit, limit, n);
  }

  lemma SliceOfTake<T>(s: seq<T>, t: seq<T>, from: nat, to: nat)
    requires from <= to && Take(s, to) == Take(t, to)
    ensures Slice(s, from, to) == Slice(t, from, to)
  {
    assert Take(s, from) == Take(Take(s, to), from);
    assert Take(t, from) == Take(Take(t, to), from);
  }

  // ---------- the reader behind the memory ----------

  function Reverse<T>(s: seq<T>): seq<T> {
    if s == [] then [] else Reverse(s[1..]) + [s[0]]
  }

  /** `_history_sources`: ranks 7 to 18, oldest first. */
  function HistorySources<T>(inbound: seq<Stamped<T>>, outbound: seq<Stamped<T>>): seq<Stamped<T>> {
    Reverse(Slice(LimitedHistory(inbound, outbound, RECENT_MESSAGES + MAX_MEMORY_SOURCES),
                  RECENT_MESSAGES, RECENT_MESSAGES + MAX_MEMORY_SOURCES))
  }

  /** With distinct timestamps they are ranks 7 to 18 of the whole history. */
  lemma SourcesAreRanks7To18<T>(inbound: seq<Stamped<T>>, outbound: seq<Stamped<T>>)
    requires DistinctTimes(inbound + outbound)
    ensures HistorySources(inbound, outbound) == Reverse(Slice(Newest(inbound + outbound), 6, 18))
  {
    LimitedQueriesLoseNothing(inbound, outbound, 18, 18);
    SliceOfTake(LimitedHistory(inbound, outbound, 18), Newest(inbound + outbound), 6, 18);
  }
}
