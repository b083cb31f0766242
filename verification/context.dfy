/**
 Greedy packing of a bounded model request (`automation/context.py`): mandatory blocks first, then every optional
 block and fact that still fits. The serialised size of a request is a parameter.
 */
module Context {

  datatype Block = Block(sourceId: string, role: string, provenance: string, text: string, mandatory: bool)

  datatype Fact = Fact(revisionId: string, version: nat, text: string)

  type Size = (seq<Block>, seq<Fact>) -> nat

  datatype Outcome =
    | Bounded(blocks: seq<Block>, facts: seq<Fact>, used: nat)
    | MandatoryOverflow
    | NotLinked
    | NoGoal

  // ---------- the greedy pass ----------

  function Packed<T>(kept: seq<T>, rest: seq<T>, fits: seq<T> -> bool): seq<T>
    decreases |rest|
  {
    if rest == [] then kept
    else Packed(if fits(kept + [rest[0]]) then kept + [rest[0]] else kept, rest[1..], fits)
  }

  function Skipped<T>(kept: seq<T>, rest: seq<T>, fits: seq<T> -> bool): seq<T>
    decreases |rest|
  {
    if rest == [] then []
    else if fits(kept + [rest[0]]) then Skipped(kept + [rest[0]], rest[1..], fits)
    else [rest[0]] + Skipped(kept, rest[1..], fits)
  }

  ghost predicate Subsequence<T>(a: seq<T>, b: seq<T>)
    decreases |b|
  {
    if b == [] then a == []
    else Subsequence(a, b[1..]) || (a != [] && a[0] == b[0] && Subsequence(a[1..], b[1..]))
  }

  /** A larger selection is never accepted when a smaller one is refused, in whatever order it is written. */
  ghost predicate Shrinking<T(!new)>(fits: seq<T> -> bool) {
    forall a, b :: fits(b) && multiset(a) <= multiset(b) ==> fits(a)
  }

  /** Nothing is lost or invented. */
  lemma {:induction false} PackedAndSkipped<T>(kept: seq<T>, rest: seq<T>, fits: seq<T> -> bool)
    ensures multiset(Packed(kept, rest, fits)) + multiset(Skipped(kept, rest, fits)) == multiset(kept) + multiset(rest)
    decreases |rest|
  {
    if rest != [] {
      assert multiset(rest) == multiset{rest[0]} + multiset(rest[1..]) by { assert rest == [rest[0]] + rest[1..]; }
      if fits(kept + [rest[0]]) {
        PackedAndSkipped(kept + [rest[0]], rest[1..], fits);
      } else {
        PackedAndSkipped(kept, rest[1..], fits);
        var p, left := Packed(kept, rest, fits), Skipped(kept, rest[1..], fits);
        assert p == Packed(kept, rest[1..], fits);
        assert Skipped(kept, rest, fits) == [rest[0]] + left;
        assert multiset(p) + multiset([rest[0]] + left) == multiset{rest[0]} + (multiset(p) + multiset(left));
      }
    }
  }

  /** One element more is kept if and only if it fits beside what was kept of those before it, and is skipped if it does
      not: no element is looked at twice, and none is let go for a later one. */
  lemma {:induction false} PackedOneMore<T>(kept: seq<T>, rest: seq<T>, x: T, fits: seq<T> -> bool)
    ensures Packed(kept, [], fits) == kept && Skipped(kept, [], fits) == []
    ensures var p, left := Packed(kept, rest, fits), Skipped(kept, rest, fits);
            && Packed(kept, rest + [x], fits) == (if fits(p + [x]) then p + [x] else p)
            && Skipped(kept, rest + [x], fits) == (if fits(p + [x]) then left else left + [x])
    decreases |rest|
  {
    if rest == [] {
      assert rest + [x] == [x] && [x][1..] == [];
    } else {
      assert (rest + [x])[1..] == rest[1..] + [x];
      PackedOneMore(if fits(kept + [rest[0]]) then kept + [rest[0]] else kept, rest[1..], x, fits);
    }
  }

  /** What is kept starts with what was there, keeps the order of the rest, and fits. */
  lemma {:induction false} PackedKeepsOrder<T>(kept: seq<T>, rest: seq<T>, fits: seq<T> -> bool)
    requires fits(kept)
    ensures var p := Packed(kept, rest, fits);
            kept <= p && Subsequence(p[|kept|..], rest) && fits(p)
    decreases |rest|
  {
    if rest != [] {
      if fits(kept + [rest[0]]) {
        PackedKeepsOrder(kept + [rest[0]], rest[1..], fits);
        var p := Packed(kept, rest, fits);
        assert p[|kept|..][0] == rest[0] && p[|kept|..][1..] == p[|kept| + 1..];
      } else {
        PackedKeepsOrder(kept, rest[1..], fits);
      }
    }
  }

  /** No skipped element fits into the final selection, wherever it is put. */
  lemma {:induction false} SkippedDoNotFit<T(!new)>(kept: seq<T>, rest: seq<T>, fits: seq<T> -> bool, x: T,
                                               withX: seq<T>)
    requires fits(kept) && Shrinking(fits)
    requires x in Skipped(kept, rest, fits)
    requires multiset(withX) == multiset(Packed(kept, rest, fits)) + multiset{x}
    ensures !fits(withX)
    decreases |rest|
  {
    if fits(kept + [rest[0]]) {
      SkippedDoNotFit(kept + [rest[0]], rest[1..], fits, x, withX);
    } else if x in Skipped(kept, rest[1..], fits) {
      SkippedDoNotFit(kept, rest[1..], fits, x, withX);
    } else {
      assert x == rest[0];
      PackedKeepsOrder(kept, rest, fits);
      var p := Packed(kept, rest, fits);
      assert p == kept + p[|kept|..];
      assert multiset(kept + [x]) <= multiset(withX);
    }
  }

  // ---------- a whole request ----------

  function BlocksFit(size: Size, limit: nat): seq<Block> -> bool {
    bs => size(bs, []) <= limit
  }

  function FactsFit(size: Size, blocks: seq<Block>, limit: nat): seq<Fact> -> bool {
    fs => size(blocks, fs) <= limit
  }

  /** Both builders, once their mandatory blocks are known. */
  function Bound(size: Size, limit: nat, mandatory: seq<Block>, optional: seq<Block>, revisions: seq<Fact>): Outcome {
    if size(mandatory, []) > limit then MandatoryOverflow
    else
      var blocks := Packed(mandatory, optional, BlocksFit(size, limit));
      var facts := Packed([], revisions, FactsFit(size, blocks, limit));
      Bounded(blocks, facts, size(blocks, facts))
  }

  /** The size of a request does not depend on the order of its parts and grows with them. */
  ghost predicate Monotone(size: Size) {
    forall bs, fs, bs', fs' :: multiset(bs) <= multiset(bs') && multiset(fs) <= multiset(fs') ==>
      size(bs, fs) <= size(bs', fs')
  }

  /** Overflow exactly when the mandatory blocks alone are too long; otherwise all of them are kept, the rest stays in
      order, and the final size is within the limit, whatever the size function. */
  lemma BoundIsBounded(size: Size, limit: nat, mandatory: seq<Block>, optional: seq<Block>, revisions: seq<Fact>)
    ensures Bound(size, limit, mandatory, optional, revisions).Bounded? <==> size(mandatory, []) <= limit
    ensures Bound(size, limit, mandatory, optional, revisions).MandatoryOverflow? <==> size(mandatory, []) > limit
    ensures size(mandatory, []) <= limit ==>
              var r := Bound(size, limit, mandatory, optional, revisions);
              && mandatory <= r.blocks && Subsequence(r.blocks[|mandatory|..], optional)
              && Subsequence(r.facts, revisions)
              && r.used == size(r.blocks, r.facts) <= limit
  {
    if size(mandatory, []) <= limit {
      PackedKeepsOrder(mandatory, optional, BlocksFit(size, limit));
      var blocks := Packed(mandatory, optional, BlocksFit(size, limit));
      PackedKeepsOrder([], revisions, FactsFit(size, blocks, limit));
      var facts := Packed([], revisions, FactsFit(size, blocks, limit));
      assert facts[0..] == facts;
    }
  }

  /** With a monotone size no skipped block and no skipped fact would fit in the final request, in any position; and
      every optional part is either in the request or skipped. */
  lemma BoundIsMaximal(size: Size, limit: nat, mandatory: seq<Block>, optional: seq<Block>, revisions: seq<Fact>)
    requires Monotone(size) && size(mandatory, []) <= limit
    ensures var r := Bound(size, limit, mandatory, optional, revisions);
            var skipped := Skipped(mandatory, optional, BlocksFit(size, limit));
            var dropped := Skipped([], revisions, FactsFit(size, r.blocks, limit));
            && multiset(r.blocks) + multiset(skipped) == multiset(mandatory) + multiset(optional)
            && multiset(r.facts) + multiset(dropped) == multiset(revisions)
            && (forall b, bs :: b in skipped && multiset(bs) == multiset(r.blocks) + multiset{b} ==>
                  size(bs, r.facts) > limit)
            && (forall f, fs :: f in dropped && multiset(fs) == multiset(r.facts) + multiset{f} ==>
                  size(r.blocks, fs) > limit)
  {
    var r := Bound(size, limit, mandatory, optional, revisions);
    var fit, fit' := BlocksFit(size, limit), FactsFit(size, r.blocks, limit);
    PackedAndSkipped(mandatory, optional, fit);
    PackedAndSkipped([], revisions, fit');
    PackedKeepsOrder(mandatory, optional, fit);
    var none: seq<Fact> := [];
    forall b, bs | b in Skipped(mandatory, optional, fit) && multiset(bs) == multiset(r.blocks) + multiset{b}
      ensures size(bs, r.facts) > limit
    {
      SkippedDoNotFit(mandatory, optional, fit, b, bs);
      assert size(bs, none) <= size(bs, r.facts);
    }
    forall f, fs | f in Skipped([], revisions, fit') && multiset(fs) == multiset(r.facts) + multiset{f}
      ensures size(r.blocks, fs) > limit
    {
      SkippedDoNotFit([], revisions, fit', f, fs);
    }
  }

  // ---------- the two builders ----------

  /** What both builders do once they know their mandatory blocks: one pass over the optional blocks, then one over the
      facts. */
  method PackRequest(size: Size, limit: nat, mandatory: seq<Block>, optional: seq<Block>, revisions: seq<Fact>)
      returns (r: Outcome)
    ensures r == Bound(size, limit, mandatory, optional, revisions)
  {
    if size(mandatory, []) > limit { return MandatoryOverflow; }
    var blocks := mandatory;
    ghost var fit := BlocksFit(size, limit);
    for i := 0 to |optional|
      invariant Packed(blocks, optional[i..], fit) == Packed(mandatory, optional, fit)
    {
      assert optional[i..][1..] == optional[i + 1..];
      var candidate := blocks + [optional[i]];
      if size(candidate, []) > limit { continue; }
      blocks := candidate;
    }
    var facts := [];
    ghost var fit' := FactsFit(size, blocks, limit);
    for i := 0 to |revisions|
      invariant Packed(facts, revisions[i..], fit') == Packed([], revisions, fit')
    {
      assert revisions[i..][1..] == revisions[i + 1..];
      var candidate := facts + [revisions[i]];
      if size(blocks, candidate) > limit { continue; }
      facts := candidate;
    }
    r := Bounded(blocks, facts, size(blocks, facts));
  }

  method BuildBoundedReplyContext(size: Size, limit: nat, linked: bool, mandatory: seq<Block>, optional: seq<Block>,
                                  revisions: seq<Fact>) returns (r: Outcome)
    ensures r == if linked then Bound(size, limit, mandatory, optional, revisions) else NotLinked
    ensures r.Bounded? ==> mandatory <= r.blocks && r.used == size(r.blocks, r.facts) <= limit
  {
    if !linked { return NotLinked; }
    BoundIsBounded(size, limit, mandatory, optional, revisions);
    r := PackRequest(size, limit, mandatory, optional, revisions);
  }

  method BuildBoundedScheduledContactContext(size: Size, limit: nat, linked: bool, goal: string,
                                             mandatory: seq<Block>, optional: seq<Block>, revisions: seq<Fact>)
    returns (r: Outcome)
    ensures r == if !linked then NotLinked
                 else if goal == "" then NoGoal
                 else Bound(size, limit, mandatory, optional, revisions)
    ensures r.Bounded? ==> mandatory <= r.blocks && r.used == size(r.blocks, r.facts) <= limit
  {
    if !linked { return NotLinked; }
    if goal == "" { return NoGoal; }
    BoundIsBounded(size, limit, mandatory, optional, revisions);
    r := PackRequest(size, limit, mandatory, optional, revisions);
  }
}
