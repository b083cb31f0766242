/**
 The login throttle (`accounts/services.py`) behind the check-then-record order of the login view (`api/auth.py`).

 One attempt is one atomic step, but its check and its record read the clock on their own. The counters are fixed
 windows, so the worst case of a sliding half hour needs an argument of its own.
 */
module LoginThrottle {
  import opened Common

  const WINDOW: int := 30 * MINUTE
  const LOCK: int := 30 * MINUTE

  datatype Row = Row(count: nat, start: int, lockedUntil: Option<int>)

  datatype Key = PairKey(user: nat, ip: nat) | IpKey(ip: nat)

  function Limit(k: Key): nat {
    match k
    case PairKey(_, _) => 5
    case IpKey(_) => 20
  }

  // ---------- one counter ----------

  predicate Locked(r: Option<Row>, now: int) {
    r.Some? && r.value.lockedUntil.Some? && r.value.lockedUntil.value > now
  }

  /** `_record_scope_failure`. */
  function Fail(r: Option<Row>, now: int, limit: nat): Row {
    var row := if r.Some? then r.value else Row(0, now, None);
    var opened' := if row.start <= now - WINDOW then Row(0, now, None) else row;
    var counted := opened'.(count := opened'.count + 1);
    if counted.count >= limit && !Locked(Some(counted), now)
    then counted.(lockedUntil := Some(now + LOCK)) else counted
  }

  /** Failures at the instants `ts`, in order, none of them while the counter is locked. */
  ghost predicate Legal(r: Option<Row>, ts: seq<int>, limit: nat)
    decreases |ts|
  {
    ts == [] ||
    (!Locked(r, ts[0]) && (|ts| > 1 ==> ts[0] <= ts[1]) && Legal(Some(Fail(r, ts[0], limit)), ts[1..], limit))
  }

  function CountIn(ts: seq<int>, from: int): nat {
    if ts == [] then 0 else (if from <= ts[0] < from + WINDOW then 1 else 0) + CountIn(ts[1..], from)
  }

  /** The stored count never exceeds the limit; it reaches it exactly when the row is locked past its window. */
  predicate RowOk(r: Row, limit: nat) {
    && r.count <= limit
    && (r.count == limit <==> r.lockedUntil.Some?)
    && (r.lockedUntil.Some? ==> r.lockedUntil.value >= r.start + WINDOW)
  }

  lemma FailKeepsRowOk(r: Option<Row>, now: int, limit: nat)
    requires limit > 0 && (r.Some? ==> RowOk(r.value, limit) && r.value.start <= now) && !Locked(r, now)
    ensures RowOk(Fail(r, now, limit), limit) && Fail(r, now, limit).count >= 1 && Fail(r, now, limit).start <= now
  {
  }

  // ---------- the worst half hour of one counter ----------

  ghost predicate Within(ts: seq<int>, from: int) {
    forall i :: 0 <= i < |ts| ==> from <= ts[i] < from + WINDOW
  }

  /** All failures fall into the row's own window. */
  lemma {:induction false} OneWindow(row: Row, ts: seq<int>, from: int, limit: nat)
    requires limit > 0 && RowOk(row, limit) && Legal(Some(row), ts, limit) && Within(ts, from)
    requires ts != [] ==> row.start <= ts[0]
    requires row.start >= from && (row.lockedUntil.Some? ==> row.lockedUntil.value >= from + WINDOW)
    ensures row.count + |ts| <= limit
    decreases |ts|
  {
    if ts != [] {
      assert ts[0] < from + WINDOW;
      var next := Fail(Some(row), ts[0], limit);
      assert next.count == row.count + 1;
      OneWindow(next, ts[1..], from, limit);
    }
  }

  /** A row that still counts when the half hour begins: what its window has left, and one window more. */
  lemma {:induction false} TwoWindows(row: Row, ts: seq<int>, from: int, limit: nat)
    requires limit > 0 && RowOk(row, limit) && Legal(Some(row), ts, limit) && Within(ts, from)
    requires ts != [] ==> row.start <= ts[0]
    ensures row.count < limit ==> |ts| <= 2 * limit - 1 - row.count
    ensures row.count == limit ==> |ts| <= limit
    decreases |ts|
  {
    if ts != [] {
      assert from <= ts[0];
      assert |ts| > 1 ==> ts[1] < from + WINDOW;
      var next := Fail(Some(row), ts[0], limit);
      if row.start <= ts[0] - WINDOW {
        OneWindow(next, ts[1..], from, limit);
      } else if next.count == limit {
        LockedOut(next, ts[1..], from, limit);
      } else {
        TwoWindows(next, ts[1..], from, limit);
      }
    }
  }

  lemma LockedOut(row: Row, ts: seq<int>, from: int, limit: nat)
    requires Legal(Some(row), ts, limit) && (ts != [] ==> ts[0] < from + WINDOW)
    requires row.lockedUntil.Some? && row.lockedUntil.value >= from + WINDOW
    ensures ts == []
  {
  }

  /** An unlock leaves an open window with nothing in it; only then may a window begin before its first failure. */
  predicate JustUnlocked(r: Option<Row>, now: int) {
    r.Some? && r.value.count == 0 && r.value.start > now - WINDOW
  }

  lemma {:induction false} CountWithin(ts: seq<int>, from: int)
    requires Within(ts, from)
    ensures CountIn(ts, from) == |ts|
  {
    if ts != [] {
      assert from <= ts[0] < from + WINDOW;
      CountWithin(ts[1..], from);
    }
  }

  lemma {:induction false} SortedLegal(r: Option<Row>, ts: seq<int>, limit: nat, i: nat)
    requires Legal(r, ts, limit) && i < |ts|
    ensures ts[0] <= ts[i]
    decreases |ts|
  {
    if i > 0 { SortedLegal(Some(Fail(r, ts[0], limit)), ts[1..], limit, i - 1); }
  }

  lemma {:induction false} NoneLater(ts: seq<int>, from: int)
    requires forall i :: 0 <= i < |ts| ==> ts[i] >= from + WINDOW
    ensures CountIn(ts, from) == 0
  {
    if ts != [] {
      assert ts[0] >= from + WINDOW;
      NoneLater(ts[1..], from);
    }
  }

  /** Cuts a legal sequence that has begun inside the half hour at its end. */
  lemma {:induction false} CutAtEnd(r: Option<Row>, ts: seq<int>, from: int, limit: nat) returns (n: nat)
    requires Legal(r, ts, limit) && (ts != [] ==> from <= ts[0])
    ensures n <= |ts| && Within(ts[..n], from) && Legal(r, ts[..n], limit) && CountIn(ts, from) == n
    decreases |ts|
  {
    if ts == [] {
      n := 0;
    } else if ts[0] >= from + WINDOW {
      n := 0;
      forall i | 0 <= i < |ts| ensures ts[i] >= from + WINDOW { SortedLegal(r, ts, limit, i); }
      NoneLater(ts, from);
    } else {
      var m := CutAtEnd(Some(Fail(r, ts[0], limit)), ts[1..], from, limit);
      n := m + 1;
      assert ts[..n] == [ts[0]] + ts[1..][..m];
      assert ts[..n][1..] == ts[1..][..m];
    }
  }

  /** In any half-open half hour one counter records at most twice its limit minus one failures, and one less when its
      window was not opened by an unlock. */
  lemma {:induction false} HalfHour(r: Option<Row>, ts: seq<int>, from: int, limit: nat)
    requires limit > 1 && (r.Some? ==> RowOk(r.value, limit)) && Legal(r, ts, limit)
    requires r.Some? && ts != [] ==> r.value.start <= ts[0]
    ensures CountIn(ts, from) <= 2 * limit - 1
    ensures ts != [] && !JustUnlocked(r, ts[0]) ==> CountIn(ts, from) <= 2 * limit - 2
    decreases |ts|
  {
    if ts != [] {
      var next := Fail(r, ts[0], limit);
      FailKeepsRowOk(r, ts[0], limit);
      if ts[0] < from {
        HalfHour(Some(next), ts[1..], from, limit);
      } else {
        var n := CutAtEnd(r, ts, from, limit);
        if n > 0 {
          var cut := ts[..n];
          assert cut[0] == ts[0];
          assert Within(cut[1..], from) by { assert forall i :: 0 <= i < n - 1 ==> cut[1..][i] == cut[i + 1]; }
          if r.None? || r.value.start <= ts[0] - WINDOW {
            OneWindow(next, cut[1..], from, limit);
          } else {
            TwoWindows(r.value, cut, from, limit);
          }
        }
      }
    }
  }

  // ---------- both bounds are reached ----------

  function Repeat(t: int, n: nat): seq<int> {
    if n == 0 then [] else [t] + Repeat(t, n - 1)
  }

  /** `n` failures inside an open window, short of the limit, only count. */
  lemma {:induction false} RepeatIsLegal(row: Row, t: int, n: nat, rest: seq<int>, limit: nat)
    requires row.start > t - WINDOW && row.lockedUntil.None? && row.count + n < limit
    requires Legal(Some(row.(count := row.count + n)), rest, limit) && (rest != [] ==> t <= rest[0])
    ensures Legal(Some(row), Repeat(t, n) + rest, limit)
    decreases n
  {
    var ts := Repeat(t, n) + rest;
    if n == 0 {
      assert ts == rest;
    } else {
      var next := Fail(Some(row), t, limit);
      assert next == row.(count := row.count + 1);
      RepeatIsLegal(next, t, n - 1, rest, limit);
      assert ts[1..] == Repeat(t, n - 1) + rest;
      assert |ts| > 1 ==> ts[1] == if n > 1 then t else rest[0];
    }
  }

  /** A fresh window takes `n` failures at once, up to the limit. */
  lemma FreshWindowTakes(r: Option<Row>, t: int, n: nat, limit: nat)
    requires 0 < n <= limit && limit > 1 && !Locked(r, t) && (r.Some? ==> r.value.start <= t - WINDOW)
    ensures Legal(r, Repeat(t, n), limit)
  {
    var first := Fail(r, t, limit);
    assert first == Row(1, t, None);
    if n == limit {
      var last := Row(limit - 1, t, None);
      assert Legal(Some(last), [t], limit);
      RepeatIsLegal(first, t, limit - 2, [t], limit);
      RepeatOneMore(t, limit - 2);
    } else {
      RepeatIsLegal(first, t, n - 1, [], limit);
      assert Repeat(t, n - 1) + [] == Repeat(t, n - 1);
    }
    assert Repeat(t, n)[1..] == Repeat(t, n - 1);
    assert n > 1 ==> Repeat(t, n)[1] == t;
  }

  lemma {:induction false} RepeatOneMore(t: int, n: nat)
    ensures Repeat(t, n) + [t] == Repeat(t, n + 1)
  {
    if n > 0 {
      RepeatOneMore(t, n - 1);
      assert Repeat(t, n) + [t] == [t] + (Repeat(t, n - 1) + [t]);
    }
  }

  lemma {:induction false} RepeatCount(t: int, n: nat, rest: seq<int>, from: int)
    requires from <= t < from + WINDOW
    ensures CountIn(Repeat(t, n) + rest, from) == n + CountIn(rest, from)
  {
    if n == 0 {
      assert Repeat(t, n) + rest == rest;
    } else {
      RepeatCount(t, n - 1, rest, from);
      assert (Repeat(t, n) + rest)[1..] == Repeat(t, n - 1) + rest;
    }
  }

  /** One failure short of the limit at the very end of a window that began empty, then a full window. */
  function AfterUnlock(start: int, limit: nat): seq<int>
    requires limit > 1
  {
    Repeat(start + WINDOW - 1, limit - 1) + Repeat(start + WINDOW, limit)
  }

  lemma AfterUnlockIsLegal(row: Row, limit: nat, n: nat, m: nat)
    requires row.lockedUntil.None? && row.count + n < limit && 0 < m <= limit && limit > 1
    ensures var t := row.start + WINDOW;
            var ts := Repeat(t - 1, n) + Repeat(t, m);
            Legal(Some(row), ts, limit) && CountIn(ts, t - 1) == n + m
  {
    var t := row.start + WINDOW;
    FreshWindowTakes(Some(row.(count := row.count + n)), t, m, limit);
    assert Repeat(t, m)[0] == t;
    RepeatIsLegal(row, t - 1, n, Repeat(t, m), limit);
    RepeatCount(t - 1, n, Repeat(t, m), t - 1);
    RepeatCount(t, m, [], t - 1);
    assert Repeat(t, m) + [] == Repeat(t, m);
  }

  /** The bound of twice the limit minus two. */
  ghost predicate Bounded(r: Option<Row>, clock: int, limit: nat) {
    forall ts, from :: Legal(r, ts, limit) && (ts != [] ==> clock <= ts[0]) ==> CountIn(ts, from) <= 2 * limit - 2
  }

  /** The exact condition: a counter respects the bound if and only if no unlock has just left an empty window. */
  lemma BoundedExactly(r: Option<Row>, clock: int, limit: nat)
    requires limit > 1 && (r.Some? ==> RowOk(r.value, limit) && r.value.start <= clock)
    ensures Bounded(r, clock, limit) <==> !JustUnlocked(r, clock)
  {
    if JustUnlocked(r, clock) {
      AfterUnlockIsLegal(r.value, limit, limit - 1, limit);
      var ts := AfterUnlock(r.value.start, limit);
      assert ts[0] == r.value.start + WINDOW - 1;
      assert CountIn(ts, r.value.start + WINDOW - 1) == 2 * limit - 1;
    } else {
      forall ts, from | Legal(r, ts, limit) && (ts != [] ==> clock <= ts[0])
        ensures CountIn(ts, from) <= 2 * limit - 2
      {
        HalfHour(r, ts, from, limit);
      }
    }
  }

  // ---------- whole runs of the login view ----------

  datatype World = World(rows: map<Key, Row>, clock: int)

  datatype Op =
    | Attempt(user: nat, ip: nat, ok: bool, checked: int, now: int)
    | Unlock(who: Option<nat>, whence: Option<nat>, now: int)

  function RowOf(rows: map<Key, Row>, k: Key): Option<Row> {
    if k in rows then Some(rows[k]) else None
  }

  predicate Refused(rows: map<Key, Row>, user: nat, ip: nat, now: int) {
    Locked(RowOf(rows, PairKey(user, ip)), now) || Locked(RowOf(rows, IpKey(ip)), now)
  }

  function RecordFailure(rows: map<Key, Row>, user: nat, ip: nat, now: int): map<Key, Row> {
    rows[PairKey(user, ip) := Fail(RowOf(rows, PairKey(user, ip)), now, Limit(PairKey(user, ip)))]
        [IpKey(ip) := Fail(RowOf(rows, IpKey(ip)), now, Limit(IpKey(ip)))]
  }

  /** The rows `unlock_login` selects; rows of an address carry no user. */
  predicate Selected(k: Key, user: Option<nat>, ip: Option<nat>) {
    match k
    case PairKey(u, i) => (user.Some? ==> user.value == u) && (ip.Some? ==> ip.value == i)
    case IpKey(i) => user.None? && (ip.Some? ==> ip.value == i)
  }

  function UnlockRows(rows: map<Key, Row>, user: Option<nat>, ip: Option<nat>, now: int): map<Key, Row> {
    if user.None? && ip.None? then rows
    else map k | k in rows :: if Selected(k, user, ip) then Row(0, now, None) else rows[k]
  }

  /** The view checks at `checked` and records at `now`. A refused attempt does not even look at the password; a success
      deletes the pair's row. */
  function Step(w: World, op: Op): World {
    match op
    case Attempt(user, ip, ok, checked, now) =>
      World(if Refused(w.rows, user, ip, checked) then w.rows
            else if ok then w.rows - {PairKey(user, ip)}
            else RecordFailure(w.rows, user, ip, now), now)
    case Unlock(user, ip, now) => World(UnlockRows(w.rows, user, ip, now), now)
  }

  predicate Records(w: World, op: Op, k: Key) {
    op.Attempt? && !op.ok && !Refused(w.rows, op.user, op.ip, op.checked)
    && (k == PairKey(op.user, op.ip) || k == IpKey(op.ip))
  }

  predicate Resets(w: World, op: Op, k: Key) {
    match op
    case Attempt(user, ip, ok, checked, _) => ok && !Refused(w.rows, user, ip, checked) && k == PairKey(user, ip)
    case Unlock(user, ip, _) => (user.Some? || ip.Some?) && Selected(k, user, ip)
  }

  /** The first reading of the clock. */
  function Begins(op: Op): int {
    if op.Attempt? then op.checked else op.now
  }

  /** The clock does not go back. */
  ghost predicate Runs(w: World, ops: seq<Op>)
    decreases |ops|
  {
    ops == [] || (w.clock <= Begins(ops[0]) <= ops[0].now && Runs(Step(w, ops[0]), ops[1..]))
  }

  function Final(w: World, ops: seq<Op>): World
    decreases |ops|
  {
    if ops == [] then w else Final(Step(w, ops[0]), ops[1..])
  }

  /** No success and no unlock touches the key. */
  ghost predicate Untouched(w: World, ops: seq<Op>, k: Key)
    decreases |ops|
  {
    ops == [] || (!Resets(w, ops[0], k) && Untouched(Step(w, ops[0]), ops[1..], k))
  }

  /** When failures of the key were recorded. */
  function Failures(w: World, ops: seq<Op>, k: Key): seq<int>
    decreases |ops|
  {
    if ops == [] then []
    else (if Records(w, ops[0], k) then [ops[0].now] else []) + Failures(Step(w, ops[0]), ops[1..], k)
  }

  ghost predicate WorldOk(w: World) {
    forall k :: k in w.rows ==> RowOk(w.rows[k], Limit(k)) && w.rows[k].start <= w.clock
  }

  lemma StepKeepsWorldOk(w: World, op: Op)
    requires WorldOk(w) && w.clock <= Begins(op) <= op.now
    ensures WorldOk(Step(w, op))
  {
    match op
    case Attempt(user, ip, ok, checked, now) =>
      if !Refused(w.rows, user, ip, checked) && !ok {
        FailKeepsRowOk(RowOf(w.rows, PairKey(user, ip)), now, 5);
        FailKeepsRowOk(RowOf(w.rows, IpKey(ip)), now, 20);
      }
      hide Fail, RowOk;
    case Unlock(_, _, _) =>
  }

  lemma {:induction false} RunKeepsWorldOk(w: World, ops: seq<Op>)
    requires WorldOk(w) && Runs(w, ops)
    ensures WorldOk(Final(w, ops))
    decreases |ops|
  {
    if ops != [] {
      StepKeepsWorldOk(w, ops[0]);
      RunKeepsWorldOk(Step(w, ops[0]), ops[1..]);
    }
  }

  lemma {:induction false} FailuresAfterClock(w: World, ops: seq<Op>, k: Key)
    requires Runs(w, ops)
    ensures forall i :: 0 <= i < |Failures(w, ops, k)| ==> w.clock <= Failures(w, ops, k)[i]
    decreases |ops|
  {
    hide Records;
    if ops != [] { FailuresAfterClock(Step(w, ops[0]), ops[1..], k); }
  }

  /** Seen from one key, a run is a legal history of its counter. */
  lemma {:induction false} RunIsLegal(w: World, ops: seq<Op>, k: Key)
    requires Runs(w, ops) && Untouched(w, ops, k)
    ensures Legal(RowOf(w.rows, k), Failures(w, ops, k), Limit(k))
    decreases |ops|
  {
    if ops != [] {
      var next := Step(w, ops[0]);
      RunIsLegal(next, ops[1..], k);
      FailuresAfterClock(next, ops[1..], k);
      RowAfterStep(w, ops[0], k);
      var rest := Failures(next, ops[1..], k);
      if Records(w, ops[0], k) {
        assert Failures(w, ops, k) == [ops[0].now] + rest;
        assert ([ops[0].now] + rest)[1..] == rest;
        assert !Locked(RowOf(w.rows, k), ops[0].now);
      } else {
        assert Failures(w, ops, k) == rest;
      }
    }
  }

  lemma RowAfterStep(w: World, op: Op, k: Key)
    requires !Resets(w, op, k)
    ensures RowOf(Step(w, op).rows, k)
            == if Records(w, op, k) then Some(Fail(RowOf(w.rows, k), op.now, Limit(k))) else RowOf(w.rows, k)
  {
    hide Fail;
  }

  /** The worst case of the throttle: in any half-open half hour of any run, a key that no success and no unlock
      touches records at most 2 * limit - 1 failures, and at most 2 * limit - 2, that is 8 for a pair and 38 for an
      address, unless an unlock just before the run left it an empty window. The stored count stays within the limit. */
  lemma WorstHalfHour(w: World, ops: seq<Op>, k: Key, from: int)
    requires WorldOk(w) && Runs(w, ops) && Untouched(w, ops, k)
    ensures CountIn(Failures(w, ops, k), from) <= 2 * Limit(k) - 1
    ensures !JustUnlocked(RowOf(w.rows, k), w.clock) ==>
              CountIn(Failures(w, ops, k), from) <= if k.PairKey? then 8 else 38
    ensures k in Final(w, ops).rows ==> Final(w, ops).rows[k].count <= Limit(k)
  {
    RunKeepsWorldOk(w, ops);
    RunIsLegal(w, ops, k);
    FailuresAfterClock(w, ops, k);
    var ts := Failures(w, ops, k);
    assert ts != [] ==> w.clock <= ts[0];
    HalfHour(RowOf(w.rows, k), ts, from, Limit(k));
  }

  /** A fresh installation, and a pair right after a success, start from no row at all: eight and thirty-eight. */
  lemma WorstHalfHourFromScratch(w: World, ops: seq<Op>, k: Key, from: int)
    requires WorldOk(w) && Runs(w, ops) && Untouched(w, ops, k) && k !in w.rows
    ensures CountIn(Failures(w, ops, k), from) <= if k.PairKey? then 8 else 38
  {
    WorstHalfHour(w, ops, k, from);
  }

  // ---------- nine failures after an unlock ----------

  function Guesses(ts: seq<int>): seq<Op> {
    if ts == [] then [] else [Attempt(0, 0, false, ts[0], ts[0])] + Guesses(ts[1..])
  }

  function Pair(p: Row, i: Row, clock: int): World {
    World(map[PairKey(0, 0) := p, IpKey(0) := i], clock)
  }

  lemma {:induction false} GuessesAreRecorded(p: Row, i: Row, clock: int, ts: seq<int>)
    requires Legal(Some(p), ts, 5) && Legal(Some(i), ts, 20) && (ts != [] ==> clock <= ts[0])
    ensures var w := Pair(p, i, clock);
            && Runs(w, Guesses(ts)) && Untouched(w, Guesses(ts), PairKey(0, 0))
            && Failures(w, Guesses(ts), PairKey(0, 0)) == ts
    decreases |ts|
  {
    if ts != [] {
      var p', i' := Fail(Some(p), ts[0], 5), Fail(Some(i), ts[0], 20);
      var w, w' := Pair(p, i, clock), Step(Pair(p, i, clock), Attempt(0, 0, false, ts[0], ts[0]));
      assert w'.rows == map[PairKey(0, 0) := p', IpKey(0) := i'];
      assert w' == Pair(p', i', ts[0]);
      GuessesAreRecorded(p', i', ts[0], ts[1..]);
      assert Guesses(ts)[1..] == Guesses(ts[1..]);
      assert ts == [ts[0]] + ts[1..];
    }
  }

  const FIRST_GUESS := Attempt(0, 0, false, 0, 0)
  const UNLOCK := Unlock(Some(0), None, 0)
  const FRESH := World(map[], 0)

  lemma GuessThenUnlock()
    ensures Runs(FRESH, [FIRST_GUESS, UNLOCK])
    ensures Final(FRESH, [FIRST_GUESS, UNLOCK]) == Pair(Row(0, 0, None), Row(1, 0, None), 0)
  {
    var one := Step(FRESH, FIRST_GUESS);
    assert one == Pair(Row(1, 0, None), Row(1, 0, None), 0);
    var two := Step(one, UNLOCK);
    assert two.rows == Pair(Row(0, 0, None), Row(1, 0, None), 0).rows;
    var ops := [FIRST_GUESS, UNLOCK];
    assert ops[1..] == [UNLOCK] && ops[1..][1..] == [];
    assert Final(one, ops[1..]) == Final(two, []);
    assert Runs(one, ops[1..]);
  }

  lemma NineGuesses() returns (ops: seq<Op>)
    ensures var w := Pair(Row(0, 0, None), Row(1, 0, None), 0);
            && Runs(w, ops) && Untouched(w, ops, PairKey(0, 0))
            && CountIn(Failures(w, ops, PairKey(0, 0)), WINDOW - 1) == 9
  {
    AfterUnlockIsLegal(Row(0, 0, None), 5, 4, 5);
    AfterUnlockIsLegal(Row(1, 0, None), 20, 4, 5);
    var ts := Repeat(WINDOW - 1, 4) + Repeat(WINDOW, 5);
    assert ts[0] == WINDOW - 1;
    hide Legal;
    GuessesAreRecorded(Row(0, 0, None), Row(1, 0, None), 0, ts);
    ops := Guesses(ts);
  }

  /** One failure, an unlock by the administrator, and then nine recorded failures of one pair within half an hour. */
  lemma NineFailuresAfterAnUnlock()
    ensures exists before, ops, from ::
              && Runs(FRESH, before) && WorldOk(Final(FRESH, before))
              && Runs(Final(FRESH, before), ops)
              && Untouched(Final(FRESH, before), ops, PairKey(0, 0))
              && CountIn(Failures(Final(FRESH, before), ops, PairKey(0, 0)), from) == 9
  {
    hide Runs, Final, Untouched, Failures, CountIn;
    GuessThenUnlock();
    var ops := NineGuesses();
    assert WorldOk(Final(FRESH, [FIRST_GUESS, UNLOCK]));
  }

  // ---------- the service in its own, imperative form ----------

  function RetryAfter(until: int, now: int): (seconds: int)
    ensures seconds >= 1 && now + seconds * SECOND >= until
  {
    var ceiling := (until - now + SECOND - 1) / SECOND;
    if ceiling > 1 then ceiling else 1
  }

  class Throttle {
    var rows: map<Key, Row>

    constructor ()
      ensures rows == map[]
    {
      rows := map[];
    }

    method RecordScopeFailure(k: Key, now: int)
      modifies this
      ensures rows == old(rows)[k := Fail(RowOf(old(rows), k), now, Limit(k))]
    {
      var row := if k in rows then rows[k] else Row(0, now, None);
      if row.start <= now - WINDOW { row := Row(0, now, None); }
      row := row.(count := row.count + 1);
      if row.count >= Limit(k) && !(row.lockedUntil.Some? && row.lockedUntil.value > now) {
        row := row.(lockedUntil := Some(now + LOCK));
      }
      rows := rows[k := row];
    }

    /** The check of the view, with the seconds to wait when it refuses. */
    method Status(user: nat, ip: nat, now: int) returns (locked: bool, wait: int)
      ensures locked == Refused(rows, user, ip, now)
      ensures locked ==> wait >= 1
      ensures forall k :: k in {PairKey(user, ip), IpKey(ip)} && Locked(RowOf(rows, k), now) ==>
                now + wait * SECOND >= rows[k].lockedUntil.value
    {
      var pair, address := RowOf(rows, PairKey(user, ip)), RowOf(rows, IpKey(ip));
      locked, wait := false, 0;
      var until := now;
      if Locked(pair, now) { locked, until := true, pair.value.lockedUntil.value; }
      if Locked(address, now) && address.value.lockedUntil.value > until {
        locked, until := true, address.value.lockedUntil.value;
      }
      if locked { wait := RetryAfter(until, now); }
    }

    /** `LoginView.post`: the check, then the password, then the record. */
    method Login(user: nat, ip: nat, ok: bool, checked: int, now: int) returns (accepted: bool)
      modifies this
      ensures rows == Step(World(old(rows), checked), Attempt(user, ip, ok, checked, now)).rows
      ensures accepted <==> ok && !Refused(old(rows), user, ip, checked)
      ensures Refused(old(rows), user, ip, checked) ==> rows == old(rows)
      ensures forall k :: k !in {PairKey(user, ip), IpKey(ip)} ==> RowOf(rows, k) == RowOf(old(rows), k)
    {
      var locked, wait := Status(user, ip, checked);
      if locked { return false; }
      if !ok {
        RecordScopeFailure(PairKey(user, ip), now);
        RecordScopeFailure(IpKey(ip), now);
        return false;
      }
      rows := rows - {PairKey(user, ip)};
      accepted := true;
    }

    method UnlockLogin(user: Option<nat>, ip: Option<nat>, now: int) returns (count: nat)
      modifies this
      ensures rows == UnlockRows(old(rows), user, ip, now)
      ensures user.Some? || ip.Some? ==> count == |set k | k in old(rows) && Selected(k, user, ip)|
    {
      if user.None? && ip.None? { return 0; }
      var selected := set k | k in rows && Selected(k, user, ip);
      count := |selected|;
      var left := selected;
      while left != {}
        invariant left <= selected && rows.Keys == old(rows).Keys
        invariant forall k :: k in rows ==>
          rows[k] == if k in selected && k !in left then Row(0, now, None) else old(rows)[k]
        decreases |left|
      {
        var k :| k in left;
        left := left - {k};
        rows := rows[k := Row(0, now, None)];
      }
      assert rows == UnlockRows(old(rows), user, ip, now);
    }
  }
}
