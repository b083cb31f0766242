/**
 Login attempts that overlap: the view checks the locks in one query and records a failure in a later transaction
 (`api/auth.py`), so other attempts may record in between.

 With no limit on how many attempts overlap there is no bound at all. With at most `m` of them between check and record,
 a window still takes the limit and `m - 1` failures more.
 */
module LoginRaces {
  import opened Common
  import L = LoginThrottle

  type Rows = map<L.Key, L.Row>

  /** An attempt that has passed its check. */
  datatype Passed = Passed(user: nat, ip: nat)

  datatype World = World(rows: Rows, waiting: map<nat, Passed>, clock: int)

  datatype Op =
    | Check(id: nat, user: nat, ip: nat, now: int)
    | Finish(id: nat, ok: bool, now: int)
    | Unlock(who: Option<nat>, whence: Option<nat>, now: int)

  predicate Enabled(w: World, op: Op) {
    w.clock <= op.now && (op.Check? ==> op.id !in w.waiting) && (op.Finish? ==> op.id in w.waiting)
  }

  function Finished(rows: Rows, p: Passed, ok: bool, now: int): Rows {
    if ok then rows - {L.PairKey(p.user, p.ip)} else L.RecordFailure(rows, p.user, p.ip, now)
  }

  function Step(w: World, op: Op): World
    requires Enabled(w, op)
  {
    match op
    case Check(id, user, ip, now) =>
      World(w.rows, if L.Refused(w.rows, user, ip, now) then w.waiting else w.waiting[id := Passed(user, ip)], now)
    case Finish(id, ok, now) => World(Finished(w.rows, w.waiting[id], ok, now), w.waiting - {id}, now)
    case Unlock(user, ip, now) => World(L.UnlockRows(w.rows, user, ip, now), w.waiting, now)
  }

  predicate Touches(p: Passed, k: L.Key) {
    k == L.PairKey(p.user, p.ip) || k == L.IpKey(p.ip)
  }

  /** The attempts on the key between check and record. */
  function Overlapping(w: World, k: L.Key): set<nat> {
    set id | id in w.waiting && Touches(w.waiting[id], k)
  }

  predicate Records(w: World, op: Op, k: L.Key) {
    op.Finish? && op.id in w.waiting && !op.ok && Touches(w.waiting[op.id], k)
  }

  predicate Resets(w: World, op: Op, k: L.Key) {
    match op
    case Check(_, _, _, _) => false
    case Finish(id, ok, _) =>
      ok && id in w.waiting && k == L.PairKey(w.waiting[id].user, w.waiting[id].ip)
    case Unlock(user, ip, _) => (user.Some? || ip.Some?) && L.Selected(k, user, ip)
  }

  ghost predicate Runs(w: World, ops: seq<Op>)
    decreases |ops|
  {
    ops == [] || (Enabled(w, ops[0]) && Runs(Step(w, ops[0]), ops[1..]))
  }

  ghost function Final(w: World, ops: seq<Op>): World
    requires Runs(w, ops)
    decreases |ops|
  {
    if ops == [] then w else Final(Step(w, ops[0]), ops[1..])
  }

  /** At most `m` attempts on the key overlap at any time, and no success and no unlock touches it. */
  ghost predicate Crowd(w: World, ops: seq<Op>, k: L.Key, m: nat)
    requires Runs(w, ops)
    decreases |ops|
  {
    |Overlapping(w, k)| <= m
    && (ops != [] ==> !Resets(w, ops[0], k) && Crowd(Step(w, ops[0]), ops[1..], k, m))
  }

  function Failures(w: World, ops: seq<Op>, k: L.Key): seq<int>
    decreases |ops|
  {
    if ops == [] || !Enabled(w, ops[0]) then []
    else (if Records(w, ops[0], k) then [ops[0].now] else []) + Failures(Step(w, ops[0]), ops[1..], k)
  }

  // ---------- what a window takes ----------

  function Capacity(k: L.Key, m: nat): nat
    requires m > 0
  {
    L.Limit(k) + m - 1
  }

  /** A full window is locked to its end, and only attempts that passed before the lock can still add to it. */
  predicate KeyOk(w: World, k: L.Key, m: nat)
    requires m > 0
  {
    k in w.rows ==>
      var r := w.rows[k];
      && r.start <= w.clock && r.count <= Capacity(k, m)
      && (r.count < L.Limit(k) ==> r.lockedUntil.None?)
      && (r.count >= L.Limit(k) ==>
            && r.lockedUntil.Some? && r.lockedUntil.value >= r.start + L.WINDOW
            && (w.clock < r.lockedUntil.value ==> r.count + |Overlapping(w, k)| <= Capacity(k, m)))
  }

  lemma OverlapAfterCheck(w: World, id: nat, user: nat, ip: nat, now: int, k: L.Key)
    requires Enabled(w, Check(id, user, ip, now))
    ensures L.Locked(L.RowOf(w.rows, k), now) ==>
              Overlapping(Step(w, Check(id, user, ip, now)), k) == Overlapping(w, k)
  {
    var w' := Step(w, Check(id, user, ip, now));
    if L.Locked(L.RowOf(w.rows, k), now) && Touches(Passed(user, ip), k) { assert L.Refused(w.rows, user, ip, now); }
  }

  lemma OverlapAfterFinish(w: World, id: nat, ok: bool, now: int, k: L.Key)
    requires Enabled(w, Finish(id, ok, now))
    ensures |Overlapping(Step(w, Finish(id, ok, now)), k)|
            == |Overlapping(w, k)| - (if Touches(w.waiting[id], k) then 1 else 0)
  {
    var w' := Step(w, Finish(id, ok, now));
    if Touches(w.waiting[id], k) {
      assert Overlapping(w', k) == Overlapping(w, k) - {id};
    } else {
      assert Overlapping(w', k) == Overlapping(w, k);
    }
  }

  lemma RowAfterStep(w: World, op: Op, k: L.Key)
    requires Enabled(w, op) && !Resets(w, op, k)
    ensures L.RowOf(Step(w, op).rows, k)
            == if Records(w, op, k) then Some(L.Fail(L.RowOf(w.rows, k), op.now, L.Limit(k))) else L.RowOf(w.rows, k)
  {
    hide L.Fail;
  }

  lemma StepKeepsKeyOk(w: World, op: Op, k: L.Key, m: nat)
    requires m > 0 && Enabled(w, op) && !Resets(w, op, k) && KeyOk(w, k, m) && |Overlapping(w, k)| <= m
    ensures KeyOk(Step(w, op), k, m)
  {
    RowAfterStep(w, op, k);
    match op
    case Check(id, user, ip, now) => OverlapAfterCheck(w, id, user, ip, now, k);
    case Finish(id, ok, now) =>
      OverlapAfterFinish(w, id, ok, now, k);
      hide Finished;
    case Unlock(_, _, _) => assert Overlapping(Step(w, op), k) == Overlapping(w, k);
  }

  // ---------- the worst half hour ----------

  lemma {:induction false} FailuresAfterClock(w: World, ops: seq<Op>, k: L.Key)
    ensures forall i :: 0 <= i < |Failures(w, ops, k)| ==> w.clock <= Failures(w, ops, k)[i]
    decreases |ops|
  {
    hide Records, Finished;
    if ops != [] && Enabled(w, ops[0]) { FailuresAfterClock(Step(w, ops[0]), ops[1..], k); }
  }

  /** How many failures the half hour from `from` can still take. */
  function Room(w: World, k: L.Key, from: int, m: nat): int
    requires m > 0
  {
    if w.clock < from then 2 * Capacity(k, m)
    else if k !in w.rows then Capacity(k, m)
    else if w.rows[k].start < from then 2 * Capacity(k, m) - w.rows[k].count
    else Capacity(k, m) - w.rows[k].count
  }

  lemma {:induction false} RoomIsEnough(w: World, ops: seq<Op>, k: L.Key, from: int, m: nat)
    requires m > 0 && Runs(w, ops) && KeyOk(w, k, m) && Crowd(w, ops, k, m)
    ensures L.CountIn(Failures(w, ops, k), from) <= Room(w, k, from, m)
    ensures KeyOk(Final(w, ops), k, m)
    decreases |ops|
  {
    if ops != [] {
      var next := Step(w, ops[0]);
      StepKeepsKeyOk(w, ops[0], k, m);
      RoomIsEnough(next, ops[1..], k, from, m);
      FailuresAfterClock(next, ops[1..], k);
      RoomShrinks(w, ops[0], k, from, m);
      var rest := Failures(next, ops[1..], k);
      if next.clock >= from + L.WINDOW { L.NoneLater(rest, from); }
      if Records(w, ops[0], k) {
        assert Failures(w, ops, k) == [ops[0].now] + rest;
        assert ([ops[0].now] + rest)[1..] == rest;
      } else {
        assert Failures(w, ops, k) == rest;
      }
    }
  }

  /** A failure inside the half hour takes one place. */
  lemma RoomShrinks(w: World, op: Op, k: L.Key, from: int, m: nat)
    requires m > 0 && Enabled(w, op) && !Resets(w, op, k) && KeyOk(w, k, m) && KeyOk(Step(w, op), k, m)
    ensures Step(w, op).clock < from + L.WINDOW ==>
              Room(Step(w, op), k, from, m) + (if Records(w, op, k) && from <= op.now then 1 else 0)
              <= Room(w, k, from, m)
    ensures 0 <= Room(w, k, from, m)
  {
    RowAfterStep(w, op, k);
    hide Finished, Overlapping;
  }

  /** With at most `m` attempts on a key between check and record, no success and no unlock on it: every half-open half
      hour of every run holds at most twice the limit and `m - 1` failures, and so much at most is ever stored. */
  lemma OverlappingHalfHour(w: World, ops: seq<Op>, k: L.Key, from: int, m: nat)
    requires m > 0 && Runs(w, ops) && Crowd(w, ops, k, m)
    requires L.WorldOk(L.World(w.rows, w.clock)) && w.waiting == map[]
    ensures L.CountIn(Failures(w, ops, k), from) <= 2 * (L.Limit(k) + m - 1)
    ensures k in Final(w, ops).rows ==> Final(w, ops).rows[k].count <= L.Limit(k) + m - 1
  {
    assert Overlapping(w, k) == {};
    RoomIsEnough(w, ops, k, from, m);
  }

  /** An attempt that overlaps can do more than count: recorded after the window has run out, it takes a running lock
      away. */
  lemma LateFailureLiftsTheLockExactly(r: L.Row, now: int, limit: nat)
    requires L.Locked(Some(r), now) && limit > 1
    ensures !L.Locked(Some(L.Fail(Some(r), now, limit)), now) <==> r.start <= now - L.WINDOW
  {
  }

  // ---------- no bound without a limit on overlaps ----------

  function Checks(n: nat): seq<Op> {
    if n == 0 then [] else [Check(n - 1, 0, 0, 0)] + Checks(n - 1)
  }

  function Fails(n: nat): seq<Op> {
    if n == 0 then [] else [Finish(n - 1, false, 0)] + Fails(n - 1)
  }

  predicate AtLeast(id: nat, from: nat) {
    from <= id
  }

  function Ids(from: nat, to: nat): map<nat, Passed> {
    map id: nat | id < to && AtLeast(id, from) :: Passed(0, 0)
  }

  lemma {:induction false} ManyFail(rows: Rows, n: nat)
    ensures Runs(World(rows, Ids(0, n), 0), Fails(n))
    ensures Failures(World(rows, Ids(0, n), 0), Fails(n), L.PairKey(0, 0)) == L.Repeat(0, n)
    decreases n
  {
    hide L.RecordFailure;
    if n > 0 {
      var w := World(rows, Ids(0, n), 0);
      var next := Step(w, Finish(n - 1, false, 0));
      assert Ids(0, n) - {n - 1} == Ids(0, n - 1);
      assert next == World(next.rows, Ids(0, n - 1), 0);
      ManyFail(next.rows, n - 1);
      assert Fails(n)[1..] == Fails(n - 1);
    }
  }

  lemma {:induction false} ManyPass(n: nat, total: nat)
    requires n <= total
    ensures var w := World(map[], Ids(n, total), 0);
            && Runs(w, Checks(n) + Fails(total))
            && Failures(w, Checks(n) + Fails(total), L.PairKey(0, 0)) == L.Repeat(0, total)
    decreases n
  {
    var w := World(map[], Ids(n, total), 0);
    var ops := Checks(n) + Fails(total);
    if n == 0 {
      assert ops == Fails(total);
      ManyFail(map[], total);
    } else {
      assert ops[0] == Check(n - 1, 0, 0, 0) && ops[1..] == Checks(n - 1) + Fails(total);
      assert Ids(n, total)[n - 1 := Passed(0, 0)] == Ids(n - 1, total);
      assert Step(w, ops[0]) == World(map[], Ids(n - 1, total), 0);
      ManyPass(n - 1, total);
    }
  }

  /** From an empty table any number of attempts can pass their checks before one of them records, and then all of them
      fail within the same half hour. */
  lemma OverlapsHaveNoBound(n: nat)
    ensures var w := World(map[], map[], 0);
            && Runs(w, Checks(n) + Fails(n))
            && L.CountIn(Failures(w, Checks(n) + Fails(n), L.PairKey(0, 0)), 0) == n
  {
    assert Ids(n, n) == map[];
    ManyPass(n, n);
    L.RepeatCount(0, n, [], 0);
    assert L.Repeat(0, n) + [] == L.Repeat(0, n);
  }
}
