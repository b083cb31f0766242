/**
 New text, signature and quoted history of an inbound message (`automation/candidates.py`).

 Boundaries are offsets in the text with normalised line endings, matches are offsets in the raw text. `NormPos`
 relates the two. The marker patterns and `str.strip` are parameters.
 */
module Regions {
  import opened Common

  datatype Markers = Markers(quote: string -> bool, signature: string -> bool, strip: string -> string)

  // ---------- line endings ----------

  /** `replace("\r\n", "\n")`. */
  function ReplaceCrLf(s: string): string {
    if s == [] then []
    else if |s| >= 2 && s[0] == '\r' && s[1] == '\n' then ['\n'] + ReplaceCrLf(s[2..])
    else [s[0]] + ReplaceCrLf(s[1..])
  }

  /** `replace("\r", "\n")`. */
  function ReplaceCr(s: string): string {
    if s == [] then [] else [if s[0] == '\r' then '\n' else s[0]] + ReplaceCr(s[1..])
  }

  function Normalized(text: string): string {
    ReplaceCr(ReplaceCrLf(text))
  }

  /** The carriage return at `i` disappears into the line feed after it. */
  predicate Vanishes(text: string, i: nat) {
    i + 1 < |text| && text[i] == '\r' && text[i + 1] == '\n'
  }

  /** Where the raw offset `p` lands in the normalised text. */
  function NormPos(text: string, p: nat): nat
    requires p <= |text|
  {
    if p == 0 then 0 else NormPos(text, p - 1) + (if Vanishes(text, p - 1) then 0 else 1)
  }

  lemma {:induction false} NormPosOfTail(text: string, p: nat)
    requires 0 < p <= |text|
    ensures NormPos(text, p) == NormPos(text[1..], p - 1) + (if Vanishes(text, 0) then 0 else 1)
  {
    if p > 1 {
      NormPosOfTail(text, p - 1);
      assert Vanishes(text, p - 1) == Vanishes(text[1..], p - 2);
    }
  }

  function Unified(c: char): char {
    if c == '\r' then '\n' else c
  }

  lemma NormalizedCons(text: string)
    requires text != []
    ensures Normalized(text)
            == if Vanishes(text, 0) then Normalized(text[1..]) else [Unified(text[0])] + Normalized(text[1..])
  {
    if Vanishes(text, 0) { assert text[1..][1..] == text[2..]; }
  }

  /** `NormPos` is the true place of a character: the normalised text holds it there. */
  lemma {:induction false} CharactersKeepTheirPlace(text: string, p: nat)
    requires p < |text| && !Vanishes(text, p)
    ensures NormPos(text, p) < |Normalized(text)| && Normalized(text)[NormPos(text, p)] == Unified(text[p])
  {
    NormalizedCons(text);
    if p > 0 {
      CharactersKeepTheirPlace(text[1..], p - 1);
      NormPosOfTail(text, p);
    }
  }

  lemma {:induction false} NormPosOfEnd(text: string)
    ensures NormPos(text, |text|) == |Normalized(text)|
  {
    if text != [] {
      NormalizedCons(text);
      NormPosOfTail(text, |text|);
      NormPosOfEnd(text[1..]);
    }
  }

  lemma {:induction false} NormPosMonotone(text: string, p: nat, q: nat)
    requires p <= q <= |text|
    ensures NormPos(text, p) <= NormPos(text, q) <= NormPos(text, p) + (q - p)
    decreases q
  {
    if p < q { NormPosMonotone(text, p, q - 1); }
  }

  lemma {:induction false} NoCrLfNoShift(text: string, p: nat)
    requires p <= |text|
    ensures NormPos(text, p) <= p
    ensures NormPos(text, p) == p <==> forall i :: 0 <= i < p ==> !Vanishes(text, i)
  {
    if p > 0 { NoCrLfNoShift(text, p - 1); }
  }

  // ---------- lines ----------

  /** The characters at which `str.splitlines` ends a line. */
  predicate EndsLine(c: char) {
    c in {'\n', '\r', '\U{000B}', '\U{000C}', '\U{001C}', '\U{001D}', '\U{001E}', '\U{0085}', '\U{2028}', '\U{2029}'}
  }

  function FirstLine(s: string): (n: nat)
    requires s != []
    ensures 0 < n <= |s|
    ensures forall i :: 0 <= i < n - 1 ==> !EndsLine(s[i])
    ensures n < |s| ==> EndsLine(s[n - 1])
  {
    if EndsLine(s[0]) || |s| == 1 then 1 else 1 + FirstLine(s[1..])
  }

  /** `splitlines(keepends=True)` of a text without carriage returns. */
  function Lines(s: string): seq<string> {
    if s == [] then [] else [s[..FirstLine(s)]] + Lines(s[FirstLine(s)..])
  }

  /** A line ends at a line feed, a carriage return, one of eight other separators, by their code points, and nowhere
      else. */
  lemma EndsLineExactly(c: char)
    ensures EndsLine(c) <==>
              c as int in {0x0A, 0x0B, 0x0C, 0x0D, 0x1C, 0x1D, 0x1E, 0x85, 0x2028, 0x2029}
  {
  }

  function Joined(lines: seq<string>): string {
    if lines == [] then [] else lines[0] + Joined(lines[1..])
  }

  /** Nothing follows a line end within the line. */
  ghost predicate OneLine(line: string) {
    line != [] && forall i :: 0 <= i < |line| - 1 ==> !EndsLine(line[i])
  }

  ghost predicate Ended(line: string) {
    line != [] && EndsLine(line[|line| - 1])
  }

  /** Joined again the lines are the text; no line is empty, none goes on after a line end, and only the last may do
      without one. */
  lemma {:induction false} LinesExactly(s: string)
    ensures Joined(Lines(s)) == s
    ensures forall k :: 0 <= k < |Lines(s)| ==> OneLine(Lines(s)[k])
    ensures forall k :: 0 <= k < |Lines(s)| - 1 ==> Ended(Lines(s)[k])
    decreases |s|
  {
    hide EndsLine;
    if s != [] {
      var n := FirstLine(s);
      var first, rest := s[..n], Lines(s[n..]);
      LinesExactly(s[n..]);
      assert OneLine(first) && (n < |s| ==> Ended(first));
      hide OneLine, Ended;
      assert s == first + s[n..];
      LineMore(first, rest);
      if n == |s| { assert rest == []; }
    }
  }

  lemma LineMore(first: string, rest: seq<string>)
    requires forall k :: 0 <= k < |rest| ==> OneLine(rest[k])
    requires forall k :: 0 <= k < |rest| - 1 ==> Ended(rest[k])
    requires OneLine(first) && (rest != [] ==> Ended(first))
    ensures var lines := [first] + rest;
            && Joined(lines) == first + Joined(rest)
            && (forall k :: 0 <= k < |lines| ==> OneLine(lines[k]))
            && (forall k :: 0 <= k < |lines| - 1 ==> Ended(lines[k]))
  {
    hide OneLine, Ended;
    assert ([first] + rest)[1..] == rest;
  }

  /** Offset of line `k`. */
  function LineStart(lines: seq<string>, k: nat): nat
    requires k <= |lines|
  {
    if k == 0 then 0 else LineStart(lines, k - 1) + |lines[k - 1]|
  }

  lemma {:induction false} LineStartOfTail(lines: seq<string>, k: nat)
    requires 0 < k <= |lines|
    ensures LineStart(lines, k) == |lines[0]| + LineStart(lines[1..], k - 1)
  {
    if k > 1 { LineStartOfTail(lines, k - 1); }
  }

  lemma {:induction false} LinesCoverText(s: string)
    ensures LineStart(Lines(s), |Lines(s)|) == |s|
    decreases |s|
  {
    if s != [] {
      LinesCoverText(s[FirstLine(s)..]);
      LineStartOfTail(Lines(s), |Lines(s)|);
      assert Lines(s)[1..] == Lines(s[FirstLine(s)..]);
    }
  }

  lemma {:induction false} LineStartMonotone(lines: seq<string>, j: nat, k: nat)
    requires j <= k <= |lines|
    ensures LineStart(lines, j) <= LineStart(lines, k)
    decreases k
  {
    if j < k { LineStartMonotone(lines, j, k - 1); }
  }

  /** `rstrip("\n")`. */
  function Content(line: string): string
    decreases |line|
  {
    if line != [] && line[|line| - 1] == '\n' then Content(line[..|line| - 1]) else line
  }

  /** A line is its content followed by line feeds, and the content ends with none. */
  lemma {:induction false} ContentExactly(line: string)
    ensures Content(line) <= line
    ensures forall i :: |Content(line)| <= i < |line| ==> line[i] == '\n'
    ensures Content(line) != [] ==> line[|Content(line)| - 1] != '\n'
    decreases |line|
  {
    if line != [] && line[|line| - 1] == '\n' { ContentExactly(line[..|line| - 1]); }
  }

  predicate IsQuote(m: Markers, line: string) {
    m.quote(Content(line))
  }

  predicate IsSignature(m: Markers, line: string) {
    m.signature(m.strip(Content(line)))
  }

  /** The quote pattern sees a line without its line feeds, the signature pattern also without its margins. */
  lemma MarkersExactly(m: Markers, line: string, n: nat)
    requires n <= |line| && (forall i :: n <= i < |line| ==> line[i] == '\n') && (n > 0 ==> line[n - 1] != '\n')
    ensures IsQuote(m, line) <==> m.quote(line[..n])
    ensures IsSignature(m, line) <==> m.signature(m.strip(line[..n]))
  {
    ContentExactly(line);
    assert Content(line) == line[..|Content(line)|];
    assert n == |Content(line)|;
  }

  // ---------- the split ----------

  datatype Region = NewContent | Signature | Quoted

  datatype InboundRegions = InboundRegions(
    newContent: string, signature: string, quoted: string, newEnd: nat, signatureEnd: nat)

  function RegionAt(r: InboundRegions, offset: nat): Region {
    if offset < r.newEnd then NewContent else if offset < r.signatureEnd then Signature else Quoted
  }

  /** `q` is the first quote line and `s` the first signature line before it; each may be missing. */
  ghost predicate Boundaries(m: Markers, lines: seq<string>, s: nat, q: nat) {
    && s <= q <= |lines|
    && (forall k :: 0 <= k < q ==> !IsQuote(m, lines[k]))
    && (q < |lines| ==> IsQuote(m, lines[q]))
    && (forall k :: 0 <= k < s ==> !IsSignature(m, lines[k]))
    && (s < q ==> IsSignature(m, lines[s]))
  }

  ghost predicate IsSplit(m: Markers, text: string, r: InboundRegions) {
    var norm := Normalized(text);
    && r.newEnd <= r.signatureEnd <= |norm|
    && r.newContent == m.strip(norm[..r.newEnd])
    && r.signature == m.strip(norm[r.newEnd..r.signatureEnd])
    && r.quoted == m.strip(norm[r.signatureEnd..])
    && exists s, q :: Boundaries(m, Lines(norm), s, q)
                      && r.newEnd == LineStart(Lines(norm), s) && r.signatureEnd == LineStart(Lines(norm), q)
  }

  /** `split_inbound_regions`. */
  method SplitInboundRegions(m: Markers, text: string) returns (r: InboundRegions)
    ensures IsSplit(m, text, r)
  {
    hide IsQuote, IsSignature, Normalized, Lines;
    var norm := Normalized(text);
    var lines := Lines(norm);
    var signatureStart: Option<nat> := None;
    var quoteStart: Option<nat> := None;
    var offset: nat := 0;
    ghost var s := 0;
    var k := 0;
    LinesCoverText(norm);
    while k < |lines|
      invariant k <= |lines| && offset == LineStart(lines, k) && quoteStart.None?
      invariant forall i :: 0 <= i < k ==> !IsQuote(m, lines[i])
      invariant s <= k && forall i :: 0 <= i < s ==> !IsSignature(m, lines[i])
      invariant signatureStart.None? ==> s == k
      invariant signatureStart.Some? ==>
        s < k && IsSignature(m, lines[s]) && signatureStart.value == LineStart(lines, s)
    {
      LineStartMonotone(lines, k, |lines|);
      LineStartMonotone(lines, s, k);
      if IsQuote(m, lines[k]) {
        quoteStart := Some(offset);
        break;
      }
      if signatureStart.None? {
        if IsSignature(m, lines[k]) { signatureStart := Some(offset); } else { s := s + 1; }
      }
      offset := offset + |lines[k]|;
      k := k + 1;
    }
    var quote := if quoteStart.Some? then quoteStart.value else |norm|;
    LineStartMonotone(lines, k, |lines|);
    LineStartMonotone(lines, s, k);
    var signature := if signatureStart.None? || signatureStart.value > quote then quote else signatureStart.value;
    r := InboundRegions(m.strip(norm[..signature]), m.strip(norm[signature..quote]), m.strip(norm[quote..]),
                        signature, quote);
    assert Boundaries(m, lines, s, k);
  }

  // ---------- what the labels are worth ----------

  /** The region a raw offset really lies in. */
  function TrueRegion(text: string, r: InboundRegions, p: nat): Region
    requires p <= |text|
  {
    RegionAt(r, NormPos(text, p))
  }

  /** An address labelled new content starts before every signature and quote line, and one labelled signature before
      every quote line. */
  lemma LabelsNeverOverTrust(m: Markers, text: string, r: InboundRegions, p: nat, k: nat)
    requires IsSplit(m, text, r) && p <= |text| && k < |Lines(Normalized(text))|
    ensures var lines := Lines(Normalized(text));
            && (RegionAt(r, p).NewContent? && (IsSignature(m, lines[k]) || IsQuote(m, lines[k])) ==>
                  NormPos(text, p) < LineStart(lines, k))
            && (RegionAt(r, p).Signature? && IsQuote(m, lines[k]) ==> NormPos(text, p) < LineStart(lines, k))
  {
    var lines := Lines(Normalized(text));
    var s, q :| Boundaries(m, lines, s, q) && r.newEnd == LineStart(lines, s) && r.signatureEnd == LineStart(lines, q);
    NoCrLfNoShift(text, p);
    if k >= s { LineStartMonotone(lines, s, k); }
    if k >= q { LineStartMonotone(lines, q, k); }
  }

  ghost predicate QuotedUpTo(m: Markers, lines: seq<string>, k: nat)
    requires k < |lines|
  {
    exists j :: 0 <= j <= k && IsQuote(m, lines[j])
  }

  ghost predicate UnmarkedUpTo(m: Markers, lines: seq<string>, k: nat)
    requires k < |lines|
  {
    forall j :: 0 <= j <= k ==> !IsQuote(m, lines[j]) && !IsSignature(m, lines[j])
  }

  ghost predicate InLine(lines: seq<string>, k: nat, x: nat)
    requires k < |lines|
  {
    LineStart(lines, k) <= x < LineStart(lines, k + 1)
  }

  /** Every place of the text lies in exactly one line. */
  lemma PlacesAreInOneLine(s: string, x: nat, j: nat)
    requires x < |s|
    ensures exists k: nat :: k < |Lines(s)| && InLine(Lines(s), k, x)
    ensures forall k: nat :: j < k < |Lines(s)| && InLine(Lines(s), j, x) ==> !InLine(Lines(s), k, x)
  {
    var lines, k := Lines(s), 0;
    LinesCoverText(s);
    while LineStart(lines, k + 1) <= x
      invariant k < |lines| && LineStart(lines, k) <= x
      decreases |lines| - k
    {
      k := k + 1;
    }
    assert InLine(lines, k, x);
    forall k: nat | j < k < |lines| && InLine(lines, j, x) ensures !InLine(lines, k, x) {
      LineStartMonotone(lines, j + 1, k);
    }
  }

  /** The three regions partition the normalised text line by line: a place is quoted exactly when its line or one
      above is a quote line, and new content exactly when no line down to its own carries a marker. */
  lemma RegionsPartitionText(m: Markers, text: string, r: InboundRegions)
    requires IsSplit(m, text, r)
    ensures forall k: nat, x: nat :: k < |Lines(Normalized(text))| && InLine(Lines(Normalized(text)), k, x) ==>
              && (RegionAt(r, x).Quoted? <==> QuotedUpTo(m, Lines(Normalized(text)), k))
              && (RegionAt(r, x).NewContent? <==> UnmarkedUpTo(m, Lines(Normalized(text)), k))
  {
    hide IsQuote, IsSignature, Normalized, Lines;
    var lines := Lines(Normalized(text));
    var s, q :| Boundaries(m, lines, s, q) && r.newEnd == LineStart(lines, s) && r.signatureEnd == LineStart(lines, q);
    forall k: nat, x: nat | k < |lines| && InLine(lines, k, x)
      ensures RegionAt(r, x).Quoted? <==> QuotedUpTo(m, lines, k)
      ensures RegionAt(r, x).NewContent? <==> UnmarkedUpTo(m, lines, k)
    {
      if k >= q { LineStartMonotone(lines, q, k); } else { LineStartMonotone(lines, k + 1, q); }
      if k >= s { LineStartMonotone(lines, s, k); } else { LineStartMonotone(lines, k + 1, s); }
    }
  }

  /** The exact condition: every label is right if and only if no carriage return before the quoted part disappears. */
  lemma LabelsExactly(m: Markers, text: string, r: InboundRegions)
    requires IsSplit(m, text, r)
    ensures (forall p :: 0 <= p <= |text| ==> RegionAt(r, p) == TrueRegion(text, r, p))
            <==> (forall i :: 0 <= i < r.signatureEnd ==> !Vanishes(text, i))
  {
    NormPosOfEnd(text);
    NoCrLfNoShift(text, |text|);
    var end := r.signatureEnd;
    NoCrLfNoShift(text, end);
    if forall i :: 0 <= i < end ==> !Vanishes(text, i) {
      forall p | 0 <= p <= |text| ensures RegionAt(r, p) == TrueRegion(text, r, p) {
        NoCrLfNoShift(text, p);
        if p > end { NormPosMonotone(text, end, p); }
      }
    } else {
      assert RegionAt(r, end).Quoted? && !TrueRegion(text, r, end).Quoted?;
    }
  }

  /** A text without carriage returns is labelled exactly, everywhere. */
  lemma ExactWithoutCarriageReturns(m: Markers, text: string, r: InboundRegions, p: nat)
    requires IsSplit(m, text, r) && p <= |text| && '\r' !in text
    ensures NormPos(text, p) == p && RegionAt(r, p) == TrueRegion(text, r, p)
  {
    NoCrLfNoShift(text, p);
  }

  // ---------- literal candidates ----------

  /** A match of the address pattern, with its normal form when the address is valid. */
  datatype Match = Match(start: nat, normalized: Option<string>)

  /** A literal mailto target; `region` is missing when the label is not one of the three. */
  datatype Mailto = Mailto(region: Option<Region>, normalized: Option<string>)

  datatype Candidate = Candidate(normalized: string, region: Region, start: Option<nat>)

  const MAX_CANDIDATES := 10

  predicate HasKey(cs: seq<Candidate>, normalized: string, region: Region) {
    exists i :: 0 <= i < |cs| && cs[i].normalized == normalized && cs[i].region == region
  }

  ghost predicate Unique(cs: seq<Candidate>) {
    forall i, j :: 0 <= i < j < |cs| ==> cs[i].normalized != cs[j].normalized || cs[i].region != cs[j].region
  }

  /** Everything in the result was really found, with the label of its own offset. */
  ghost predicate Sound(r: InboundRegions, matches: seq<Match>, mailtos: seq<Mailto>, cs: seq<Candidate>) {
    forall c :: c in cs ==>
      if c.start.Some?
      then Match(c.start.value, Some(c.normalized)) in matches && c.region == RegionAt(r, c.start.value)
      else Mailto(Some(c.region), Some(c.normalized)) in mailtos
  }

  ghost predicate CoversMatches(r: InboundRegions, matches: seq<Match>, cs: seq<Candidate>) {
    forall i :: 0 <= i < |matches| && matches[i].normalized.Some? ==>
      HasKey(cs, matches[i].normalized.value, RegionAt(r, matches[i].start))
  }

  ghost predicate CoversMailtos(mailtos: seq<Mailto>, cs: seq<Candidate>) {
    forall i :: 0 <= i < |mailtos| && mailtos[i].normalized.Some? && mailtos[i].region.Some? ==>
      HasKey(cs, mailtos[i].normalized.value, mailtos[i].region.value)
  }

  lemma StillHasKeys(cs: seq<Candidate>, c: Candidate)
    ensures forall n, r :: HasKey(cs, n, r) ==> HasKey(cs + [c], n, r)
    ensures HasKey(cs + [c], c.normalized, c.region)
  {
    var longer := cs + [c];
    assert longer[|cs|] == c;
    forall n, r | HasKey(cs, n, r) ensures HasKey(longer, n, r) {
      var i :| 0 <= i < |cs| && cs[i].normalized == n && cs[i].region == r;
      assert longer[i] == cs[i];
    }
  }

  /** `persist_email_candidates`: the rows of one inbound message, oldest first. */
  function Persist(rows: seq<Candidate>, values: seq<Candidate>): seq<Candidate>
    decreases |values|
  {
    if values == [] || |rows| >= MAX_CANDIDATES then rows
    else if HasKey(rows, values[0].normalized, values[0].region) then Persist(rows, values[1..])
    else Persist(rows + [values[0]], values[1..])
  }

  /** One value more adds one row, unless ten are there or one has its address and region. */
  lemma {:induction false} PersistOneMore(rows: seq<Candidate>, values: seq<Candidate>, c: Candidate)
    ensures Persist(rows, []) == rows
    ensures var p := Persist(rows, values);
            Persist(rows, values + [c])
            == if |p| >= 10 || exists k :: 0 <= k < |p| && p[k].normalized == c.normalized && p[k].region == c.region
               then p else p + [c]
    decreases |values|
  {
    if values == [] {
      assert values + [c] == [c] && [c][1..] == [];
    } else if |rows| < MAX_CANDIDATES {
      assert (values + [c])[1..] == values[1..] + [c];
      PersistOneMore(if HasKey(rows, values[0].normalized, values[0].region) then rows else rows + [values[0]],
                     values[1..], c);
    }
  }

  /** Ten rows are all. */
  lemma {:induction false} PersistStopsAtTen(rows: seq<Candidate>, values: seq<Candidate>, more: seq<Candidate>)
    requires |Persist(rows, values)| >= MAX_CANDIDATES
    ensures Persist(rows, values + more) == Persist(rows, values)
    decreases |more|
  {
    if more == [] {
      assert values + more == values;
    } else {
      assert values + more == (values + more[..|more| - 1]) + [more[|more| - 1]];
      PersistStopsAtTen(rows, values, more[..|more| - 1]);
      PersistOneMore(rows, values + more[..|more| - 1], more[|more| - 1]);
    }
  }

  /** The candidate that a match gives, when its address is valid. */
  function FromMatch(r: InboundRegions, found: Match): seq<Candidate> {
    if found.normalized.None? then []
    else [Candidate(found.normalized.value, RegionAt(r, found.start), Some(found.start))]
  }

  /** The candidate that a mailto target gives, when its address is valid and its label known. */
  function FromMailto(link: Mailto): seq<Candidate> {
    if link.normalized.None? || link.region.None? then []
    else [Candidate(link.normalized.value, link.region.value, None)]
  }

  /** Everything found in the text, in its order. */
  function FromMatches(r: InboundRegions, matches: seq<Match>): seq<Candidate> {
    if matches == [] then []
    else FromMatches(r, matches[..|matches| - 1]) + FromMatch(r, matches[|matches| - 1])
  }

  function FromMailtos(mailtos: seq<Mailto>): seq<Candidate> {
    if mailtos == [] then [] else FromMailtos(mailtos[..|mailtos| - 1]) + FromMailto(mailtos[|mailtos| - 1])
  }

  lemma {:induction false} FromMatchesOfSum(r: InboundRegions, a: seq<Match>, b: seq<Match>)
    ensures FromMatches(r, a + b) == FromMatches(r, a) + FromMatches(r, b)
    decreases |b|
  {
    if b == [] {
      assert a + b == a;
    } else {
      assert (a + b)[..|a + b| - 1] == a + b[..|b| - 1];
      FromMatchesOfSum(r, a, b[..|b| - 1]);
    }
  }

  lemma {:induction false} FromMailtosOfSum(a: seq<Mailto>, b: seq<Mailto>)
    ensures FromMailtos(a + b) == FromMailtos(a) + FromMailtos(b)
    decreases |b|
  {
    if b == [] {
      assert a + b == a;
    } else {
      assert (a + b)[..|a + b| - 1] == a + b[..|b| - 1];
      FromMailtosOfSum(a, b[..|b| - 1]);
    }
  }

  lemma NothingFound(r: InboundRegions)
    ensures FromMatches(r, []) == [] && FromMailtos([]) == []
  {
  }

  /** One match more adds at most its own candidate. */
  lemma MatchesGrow(r: InboundRegions, matches: seq<Match>, i: nat)
    requires i < |matches|
    ensures FromMatches(r, matches[..i + 1]) == FromMatches(r, matches[..i]) + FromMatch(r, matches[i])
    ensures matches[i].normalized.None? ==> FromMatches(r, matches[..i + 1]) == FromMatches(r, matches[..i])
  {
    assert matches[..i + 1][..i] == matches[..i];
  }

  /** Ten end the search. */
  lemma AfterMatch(r: InboundRegions, matches: seq<Match>, mailtos: seq<Mailto>, i: nat)
    requires i < |matches|
    requires |Persist([], FromMatches(r, matches[..i + 1]))| >= MAX_CANDIDATES
    ensures Persist([], FromMatches(r, matches) + FromMailtos(mailtos)) == Persist([], FromMatches(r, matches[..i + 1]))
  {
    hide Persist, FromMatches, FromMailtos;
    var found := FromMatches(r, matches[..i + 1]);
    assert matches == matches[..i + 1] + matches[i + 1..];
    FromMatchesOfSum(r, matches[..i + 1], matches[i + 1..]);
    var more := FromMatches(r, matches[i + 1..]) + FromMailtos(mailtos);
    assert FromMatches(r, matches) + FromMailtos(mailtos) == found + more;
    PersistStopsAtTen([], found, more);
  }

  lemma MailtosGrow(found: seq<Candidate>, mailtos: seq<Mailto>, i: nat)
    requires i < |mailtos|
    ensures found + FromMailtos(mailtos[..i + 1]) == found + FromMailtos(mailtos[..i]) + FromMailto(mailtos[i])
    ensures FromMailto(mailtos[i]) == [] ==> found + FromMailtos(mailtos[..i + 1]) == found + FromMailtos(mailtos[..i])
  {
    assert mailtos[..i + 1][..i] == mailtos[..i];
  }

  lemma AfterMailto(found: seq<Candidate>, mailtos: seq<Mailto>, i: nat)
    requires i < |mailtos|
    requires |Persist([], found + FromMailtos(mailtos[..i + 1]))| >= MAX_CANDIDATES
    ensures Persist([], found + FromMailtos(mailtos)) == Persist([], found + FromMailtos(mailtos[..i + 1]))
  {
    hide Persist, FromMailtos;
    var seen := found + FromMailtos(mailtos[..i + 1]);
    assert mailtos == mailtos[..i + 1] + mailtos[i + 1..];
    FromMailtosOfSum(mailtos[..i + 1], mailtos[i + 1..]);
    assert found + FromMailtos(mailtos) == seen + FromMailtos(mailtos[i + 1..]);
    PersistStopsAtTen([], seen, FromMailtos(mailtos[i + 1..]));
  }

  lemma {:induction false} PersistedWereFound(rows: seq<Candidate>, values: seq<Candidate>, c: Candidate)
    requires c in Persist(rows, values)
    ensures c in rows || c in values
    decreases |values|
  {
    hide HasKey;
    if values != [] && |rows| < MAX_CANDIDATES {
      PersistedWereFound(if HasKey(rows, values[0].normalized, values[0].region) then rows else rows + [values[0]],
                         values[1..], c);
    }
  }

  lemma {:induction false} FromMatchesExactly(r: InboundRegions, matches: seq<Match>, c: Candidate)
    ensures c in FromMatches(r, matches) <==>
              c.start.Some? && Match(c.start.value, Some(c.normalized)) in matches
              && c.region == RegionAt(r, c.start.value)
  {
    hide RegionAt;
    if matches != [] {
      var n := |matches| - 1;
      FromMatchesExactly(r, matches[..n], c);
      assert matches == matches[..n] + [matches[n]];
    }
  }

  lemma {:induction false} FromMailtosExactly(mailtos: seq<Mailto>, c: Candidate)
    ensures c in FromMailtos(mailtos) <==>
              c.start.None? && Mailto(Some(c.region), Some(c.normalized)) in mailtos
  {
    if mailtos != [] {
      var n := |mailtos| - 1;
      FromMailtosExactly(mailtos[..n], c);
      assert mailtos == mailtos[..n] + [mailtos[n]];
    }
  }

  /** What is found in text and links, and cut at ten, is sound, and complete unless ten were found. */
  lemma ExtractedIsGood(r: InboundRegions, matches: seq<Match>, mailtos: seq<Mailto>)
    ensures var cs := Persist([], FromMatches(r, matches) + FromMailtos(mailtos));
            && |cs| <= MAX_CANDIDATES && Unique(cs) && Sound(r, matches, mailtos, cs)
            && (|cs| < MAX_CANDIDATES ==> CoversMatches(r, matches, cs) && CoversMailtos(mailtos, cs))
  {
    hide RegionAt, Persist, FromMatches, FromMailtos, HasKey;
    var values := FromMatches(r, matches) + FromMailtos(mailtos);
    var cs := Persist([], values);
    PersistKeepsRows([], values);
    forall c | c in cs
      ensures if c.start.Some?
              then Match(c.start.value, Some(c.normalized)) in matches && c.region == RegionAt(r, c.start.value)
              else Mailto(Some(c.region), Some(c.normalized)) in mailtos
    {
      PersistedWereFound([], values, c);
      FromMatchesExactly(r, matches, c);
      FromMailtosExactly(mailtos, c);
    }
    if |cs| < MAX_CANDIDATES {
      forall i | 0 <= i < |matches| && matches[i].normalized.Some?
        ensures HasKey(cs, matches[i].normalized.value, RegionAt(r, matches[i].start))
      {
        var c := Candidate(matches[i].normalized.value, RegionAt(r, matches[i].start), Some(matches[i].start));
        FromMatchesExactly(r, matches, c);
        KeptKey(values, c, cs);
      }
      forall i | 0 <= i < |mailtos| && mailtos[i].normalized.Some? && mailtos[i].region.Some?
        ensures HasKey(cs, mailtos[i].normalized.value, mailtos[i].region.value)
      {
        var c := Candidate(mailtos[i].normalized.value, mailtos[i].region.value, None);
        FromMailtosExactly(mailtos, c);
        KeptKey(values, c, cs);
      }
    }
  }

  lemma KeptKey(values: seq<Candidate>, c: Candidate, cs: seq<Candidate>)
    requires c in values
    requires forall i :: 0 <= i < |values| ==> HasKey(cs, values[i].normalized, values[i].region)
    ensures HasKey(cs, c.normalized, c.region)
  {
    hide HasKey;
  }

  /** `extract_literal_candidates`: every candidate was literally there and carries its own label, none twice, and
      unless the limit was reached none is missing. The candidates of the text come first, then those of the links, and
      the first ten stay. */
  method ExtractLiteralCandidates(m: Markers, text: string, matches: seq<Match>, mailtos: seq<Mailto>)
    returns (regions: InboundRegions, cs: seq<Candidate>)
    ensures IsSplit(m, text, regions)
    ensures |cs| <= MAX_CANDIDATES && Unique(cs) && Sound(regions, matches, mailtos, cs)
    ensures |cs| < MAX_CANDIDATES ==> CoversMatches(regions, matches, cs) && CoversMailtos(mailtos, cs)
    ensures cs == Persist([], FromMatches(regions, matches) + FromMailtos(mailtos))
  {
    hide IsSplit, RegionAt, Persist, FromMatches, FromMailtos, Sound, CoversMatches, CoversMailtos, Unique;
    regions := SplitInboundRegions(m, text);
    cs := [];
    ExtractedIsGood(regions, matches, mailtos);
    PersistOneMore([], [], Candidate("", NewContent, None));
    NothingFound(regions);
    assert matches[..0] == [] && mailtos[..0] == [];
    for i := 0 to |matches|
      invariant |cs| < MAX_CANDIDATES && cs == Persist([], FromMatches(regions, matches[..i]))
    {
      var found := matches[i];
      MatchesGrow(regions, matches, i);
      if found.normalized.None? { continue; }
      var region := RegionAt(regions, found.start);
      var c := Candidate(found.normalized.value, region, Some(found.start));
      PersistOneMore([], FromMatches(regions, matches[..i]), c);
      if HasKey(cs, found.normalized.value, region) { continue; }
      cs := cs + [c];
      if |cs| == MAX_CANDIDATES {
        AfterMatch(regions, matches, mailtos, i);
        return;
      }
    }
    assert matches[..|matches|] == matches;
    ghost var before := FromMatches(regions, matches);
    assert before + [] == before;
    for i := 0 to |mailtos|
      invariant |cs| < MAX_CANDIDATES && cs == Persist([], before + FromMailtos(mailtos[..i]))
    {
      var link := mailtos[i];
      MailtosGrow(before, mailtos, i);
      if link.region.None? || link.normalized.None? { continue; }
      var c := Candidate(link.normalized.value, link.region.value, None);
      PersistOneMore([], before + FromMailtos(mailtos[..i]), c);
      if HasKey(cs, link.normalized.value, link.region.value) { continue; }
      cs := cs + [c];
      if |cs| == MAX_CANDIDATES {
        AfterMailto(before, mailtos, i);
        return;
      }
    }
    assert mailtos[..|mailtos|] == mailtos;
  }

  /** An address taken from the text and labelled new content starts before every signature and quote line. */
  lemma NewContentCandidatesAreAuthored(m: Markers, text: string, r: InboundRegions, matches: seq<Match>,
                                        mailtos: seq<Mailto>, cs: seq<Candidate>, c: Candidate, k: nat)
    requires IsSplit(m, text, r) && Sound(r, matches, mailtos, cs) && c in cs
    requires c.start.Some? && c.start.value <= |text| && c.region.NewContent?
    requires k < |Lines(Normalized(text))|
    requires IsSignature(m, Lines(Normalized(text))[k]) || IsQuote(m, Lines(Normalized(text))[k])
    ensures NormPos(text, c.start.value) < LineStart(Lines(Normalized(text)), k)
  {
    LabelsNeverOverTrust(m, text, r, c.start.value, k);
  }

  // ---------- persisting ----------

  lemma {:induction false} PersistKeepsRows(rows: seq<Candidate>, values: seq<Candidate>)
    requires Unique(rows) && |rows| <= MAX_CANDIDATES
    ensures var p := Persist(rows, values);
            && rows <= p && |p| <= MAX_CANDIDATES && Unique(p)
            && (|p| < MAX_CANDIDATES ==>
                  forall i :: 0 <= i < |values| ==> HasKey(p, values[i].normalized, values[i].region))
    decreases |values|
  {
    if values != [] && |rows| < MAX_CANDIDATES {
      var next := if HasKey(rows, values[0].normalized, values[0].region) then rows else rows + [values[0]];
      StillHasKeys(rows, values[0]);
      PersistKeepsRows(next, values[1..]);
      PrefixHasKeys(next, Persist(next, values[1..]), values[0].normalized, values[0].region);
    }
  }

  lemma PrefixHasKeys(a: seq<Candidate>, b: seq<Candidate>, n: string, r: Region)
    requires a <= b
    ensures HasKey(a, n, r) ==> HasKey(b, n, r)
  {
    if HasKey(a, n, r) {
      var i :| 0 <= i < |a| && a[i].normalized == n && a[i].region == r;
      assert b[i] == a[i];
    }
  }

  lemma {:induction false} PersistNothingNew(rows: seq<Candidate>, values: seq<Candidate>)
    requires |rows| >= MAX_CANDIDATES
             || forall i :: 0 <= i < |values| ==> HasKey(rows, values[i].normalized, values[i].region)
    ensures Persist(rows, values) == rows
    decreases |values|
  {
    if values != [] && |rows| < MAX_CANDIDATES { PersistNothingNew(rows, values[1..]); }
  }

  /** At most ten rows, one per address and region, earlier rows untouched; persisting again changes nothing. */
  lemma PersistIsIdempotent(rows: seq<Candidate>, values: seq<Candidate>)
    requires Unique(rows) && |rows| <= MAX_CANDIDATES
    ensures var p := Persist(rows, values);
            rows <= p && |p| <= MAX_CANDIDATES && Unique(p) && Persist(p, values) == p
  {
    PersistKeepsRows(rows, values);
    PersistNothingNew(Persist(rows, values), values);
  }
}
