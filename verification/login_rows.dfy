/**
 What a login attempt leaves in the rows of the throttle: windows and locks of half an hour, five failures for a pair
 and twenty for an address.
 */
module LoginRows {
  import opened Common
  import opened LoginThrottle
  import R = LoginRaces

  const HALF_AN_HOUR := 1_800_000_000

  lemma LimitsExactly(user: nat, ip: nat)
    ensures Limit(PairKey(user, ip)) == 5 && Limit(IpKey(ip)) == 20
  {
  }

  /** A failure counts in its window, or opens a new one when that began half an hour ago or more; when the count
      reaches the limit, a row that is not locked is locked for half an hour. */
  lemma FailsExactly(r: Option<Row>, now: int, limit: nat)
    ensures var opens := r == None || r.value.start + HALF_AN_HOUR <= now;
            var count := if opens then 1 else r.value.count + 1;
            var start := if opens then now else r.value.start;
            var lock := if opens then None else r.value.lockedUntil;
            Fail(r, now, limit)
            == Row(count, start, if count >= limit && !(lock.Some? && lock.value > now) then Some(now + HALF_AN_HOUR)
                                 else lock)
  {
    assert WINDOW == HALF_AN_HOUR && LOCK == HALF_AN_HOUR;
  }

  /** Refused while one of the two keys is locked. */
  lemma RefusesExactly(rows: map<Key, Row>, user: nat, ip: nat, now: int)
    ensures Refused(rows, user, ip, now) <==>
              exists k :: (k == PairKey(user, ip) || k == IpKey(ip)) && k in rows && rows[k].lockedUntil.Some?
                          && now < rows[k].lockedUntil.value
  {
    if Locked(RowOf(rows, PairKey(user, ip)), now) { assert PairKey(user, ip) in rows; }
    if Locked(RowOf(rows, IpKey(ip)), now) { assert IpKey(ip) in rows; }
  }

  function At(rows: map<Key, Row>, k: Key): Option<Row> {
    if k in rows then Some(rows[k]) else None
  }

  /** A refused attempt changes nothing, a success forgets the pair, and a failure counts on pair and address. */
  lemma AttemptsExactly(w: World, user: nat, ip: nat, ok: bool, checked: int, now: int)
    ensures var after := Step(w, Attempt(user, ip, ok, checked, now));
            && after.clock == now
            && forall k ::
                 At(after.rows, k)
                 == if Refused(w.rows, user, ip, checked) then At(w.rows, k)
                    else if ok then (if k == PairKey(user, ip) then None else At(w.rows, k))
                    else if k == PairKey(user, ip) || k == IpKey(ip) then Some(Fail(At(w.rows, k), now, Limit(k)))
                    else At(w.rows, k)
  {
    hide Fail, Refused;
  }

  /** An unlock empties the rows of the user, of the address, or of both; without either it is refused. Rows of an
      address alone belong to no user. */
  lemma UnlocksExactly(w: World, user: Option<nat>, ip: Option<nat>, now: int)
    ensures var after := Step(w, Unlock(user, ip, now));
            && after.clock == now && after.rows.Keys == w.rows.Keys
            && forall k :: k in w.rows ==>
                 after.rows[k]
                 == if user == None && ip == None then w.rows[k]
                    else if (user == None || (k.PairKey? && k.user == user.value)) && (ip == None || k.ip == ip.value)
                    then Row(0, now, None) else w.rows[k]
  {
  }

  /** The wait is the shortest number of whole seconds that outlasts the lock, and at least one. */
  lemma WaitsExactly(until: int, now: int)
    ensures var s := RetryAfter(until, now);
            && s >= 1 && now + s * 1_000_000 >= until
            && (s > 1 ==> now + (s - 1) * 1_000_000 < until)
  {
  }

  // ---------- what ends a count, and what adds to it ----------

  /** A step resets a key that counts something exactly when it leaves nothing of the count. */
  lemma ResetsExactly(w: World, op: Op, k: Key)
    requires k in w.rows && w.rows[k].count > 0
    ensures Resets(w, op, k) <==> k !in Step(w, op).rows || Step(w, op).rows[k].count == 0
  {
  }

  /** With overlapping attempts too. */
  lemma OverlapResetsExactly(w: R.World, op: R.Op, k: Key)
    requires R.Enabled(w, op) && k in w.rows && w.rows[k].count > 0
    ensures R.Resets(w, op, k) <==> k !in R.Step(w, op).rows || R.Step(w, op).rows[k].count == 0
  {
  }

  /** An attempt that passes its check waits; one that does not leaves no trace but the time. */
  lemma ChecksExactly(w: R.World, id: nat, user: nat, ip: nat, now: int)
    requires R.Enabled(w, R.Check(id, user, ip, now))
    ensures R.Step(w, R.Check(id, user, ip, now))
            == R.World(w.rows, if Refused(w.rows, user, ip, now) then w.waiting
                               else w.waiting[id := R.Passed(user, ip)], now)
  {
  }

  /** A waiting attempt ends: a success forgets the pair, and a failure counts on pair and address, whatever was locked
      meanwhile. */
  lemma FinishesExactly(w: R.World, id: nat, ok: bool, now: int)
    requires R.Enabled(w, R.Finish(id, ok, now))
    ensures var after := R.Step(w, R.Finish(id, ok, now));
            var p := w.waiting[id];
            && after.clock == now && after.waiting == w.waiting - {id}
            && forall k ::
                 At(after.rows, k)
                 == if ok then (if k == PairKey(p.user, p.ip) then None else At(w.rows, k))
                    else if k == PairKey(p.user, p.ip) || k == IpKey(p.ip) then
                      Some(Fail(At(w.rows, k), now, Limit(k)))
                    else At(w.rows, k)
  {
    hide Fail;
  }
}
