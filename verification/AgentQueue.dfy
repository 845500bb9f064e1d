/**
The agent's durable queue of telemetry: enqueueing, claiming a batch, retrying, quarantining, deleting
what the manager acknowledged, and recovery after a restart.
*/
module AgentQueue {
  import opened Options
  import opened Telemetry

  datatype Status = Pending | RetryPending | InFlight | PermanentError

  datatype ErrorClass = Transient | Authentication | Validation | Security | Permanent

  datatype Row = Row(
    record: Record, kind: string, severity: string, status: Status, attempts: nat,
    lastAt: Option<int>, nextAt: Option<int>, error: Option<ErrorClass>)

  /** The setting `ZTA_INFLIGHT_TIMEOUT_SECONDS`, whatever it is; 30 seconds is the least that counts. */
  const CONFIGURED_TIMEOUT: int
  const INFLIGHT_TIMEOUT: int := if CONFIGURED_TIMEOUT < 30 then 30 else CONFIGURED_TIMEOUT

  const AUTHENTICATION_ATTEMPTS: nat := 3

  function Fresh(record: Record, kind: string, severity: string): Row {
    Row(record, kind, severity, Pending, 0, None, None, None)
  }

  function Find(rows: seq<Row>, id: string): (r: Option<Row>)
    ensures r.Some? ==> r.value in rows && r.value.record.eventId == id
    ensures r.None? ==> forall row :: row in rows ==> row.record.eventId != id
  {
    if rows == [] then None
    else if rows[0].record.eventId == id then Some(rows[0])
    else Find(rows[1..], id)
  }

  // ---------------------------------------------------------------- claiming

  function Unstuck(r: Row, now: int): Row {
    if r.status.InFlight? && r.lastAt.Some? && r.lastAt.value <= now - INFLIGHT_TIMEOUT then
      r.(status := RetryPending, nextAt := None, error := Some(Transient))
    else r
  }

  predicate Due(r: Row, now: int) {
    (r.status.Pending? || r.status.RetryPending?) && (r.nextAt.None? || r.nextAt.value <= now)
  }

  function Taken(r: Row, now: int): Row {
    r.(status := InFlight, attempts := r.attempts + 1, lastAt := Some(now))
  }

  /** Stale rows are recovered, then the first `size` due rows in queue order are taken. */
  function Claim(rows: seq<Row>, size: nat, now: int): (seq<Row>, seq<Record>) {
    if rows == [] then ([], [])
    else
      var row := Unstuck(rows[0], now);
      if size > 0 && Due(row, now) then
        var rest := Claim(rows[1..], size - 1, now);
        ([Taken(row, now)] + rest.0, [row.record] + rest.1)
      else
        var rest := Claim(rows[1..], size, now);
        ([row] + rest.0, rest.1)
  }

  /** A claim part of the way: `done` is settled, `batch` taken, `rest` still to be looked at. */
  ghost function ClaimFrom(done: seq<Row>, batch: seq<Record>, rest: seq<Row>, size: nat, now: int)
    : (seq<Row>, seq<Record>)
  {
    (done + Claim(rest, size, now).0, batch + Claim(rest, size, now).1)
  }

  lemma ClaimGoesOn(done: seq<Row>, batch: seq<Record>, rest: seq<Row>, size: nat, now: int)
    requires rest != []
    ensures var row := Unstuck(rest[0], now);
      ClaimFrom(done, batch, rest, size, now) ==
        if size > 0 && Due(row, now)
        then ClaimFrom(done + [Taken(row, now)], batch + [row.record], rest[1..], size - 1, now)
        else ClaimFrom(done + [row], batch, rest[1..], size, now)
  {
    hide Unstuck, Due, Taken;
    var row := Unstuck(rest[0], now);
    if size > 0 && Due(row, now) {
      var tail := Claim(rest[1..], size - 1, now);
      assert done + ([Taken(row, now)] + tail.0) == (done + [Taken(row, now)]) + tail.0;
      assert batch + ([row.record] + tail.1) == (batch + [row.record]) + tail.1;
    } else {
      var tail := Claim(rest[1..], size, now);
      assert done + ([row] + tail.0) == (done + [row]) + tail.0;
    }
  }

  lemma ClaimStarts(rows: seq<Row>, size: nat, now: int)
    ensures ClaimFrom([], [], rows, size, now) == Claim(rows, size, now)
  {
    assert [] + Claim(rows, size, now).0 == Claim(rows, size, now).0;
    assert [] + Claim(rows, size, now).1 == Claim(rows, size, now).1;
  }

  lemma ClaimEnds(done: seq<Row>, batch: seq<Record>, size: nat, now: int)
    ensures ClaimFrom(done, batch, [], size, now) == (done, batch)
  {
    assert done + [] == done && batch + [] == batch;
  }

  // ---------------------------------------------------------------- retrying

  function Power2(n: nat): nat { if n == 0 then 1 else 2 * Power2(n - 1) }

  function Backoff(attempts: nat): nat {
    if attempts <= 1 then 0
    else
      var delay := Power2(if attempts - 1 < 8 then attempts - 1 else 8);
      if delay < 300 then delay else 300
  }

  predicate Quarantines(error: ErrorClass, attempts: nat) {
    error.Permanent? || error.Validation? || error.Security?
    || (error.Authentication? && attempts >= AUTHENTICATION_ATTEMPTS)
  }

  function Retried(r: Row, error: ErrorClass, delay: Option<int>, now: int): Row {
    var wait: int := if delay.None? then Backoff(r.attempts) else if delay.value < 0 then 0 else delay.value;
    r.(status := if Quarantines(error, r.attempts) then PermanentError else RetryPending,
       nextAt := Some(now + wait), error := Some(error))
  }

  function Retry(rows: seq<Row>, ids: seq<string>, error: ErrorClass, delay: Option<int>, now: int): (after: seq<Row>)
    ensures |after| == |rows|
    ensures forall i :: 0 <= i < |rows| ==>
              after[i] == (if rows[i].record.eventId in ids then Retried(rows[i], error, delay, now) else rows[i])
  {
    seq(|rows|, i requires 0 <= i < |rows| =>
      if rows[i].record.eventId in ids then Retried(rows[i], error, delay, now) else rows[i])
  }

  function Without(rows: seq<Row>, ids: seq<string>): seq<Row> {
    if rows == [] then []
    else (if rows[0].record.eventId in ids then [] else [rows[0]]) + Without(rows[1..], ids)
  }

  /** What is left of a sequence when some of its elements are taken out. */
  predicate Subsequence<T(==)>(some: seq<T>, all: seq<T>) {
    some == [] ||
    (all != [] && Subsequence(if some[0] == all[0] then some[1..] else some, all[1..]))
  }

  lemma {:induction false} WithoutKeepsMembers(rows: seq<Row>, ids: seq<string>)
    ensures forall r :: r in Without(rows, ids) <==> r in rows && r.record.eventId !in ids
    ensures |Without(rows, ids)| <= |rows|
  {
    if rows != [] {
      WithoutKeepsMembers(rows[1..], ids);
      assert rows == [rows[0]] + rows[1..];
    }
  }

  lemma {:induction false} WithoutKeepsCounts(rows: seq<Row>, ids: seq<string>)
    ensures forall r: Row :: r.record.eventId !in ids ==> multiset(Without(rows, ids))[r] == multiset(rows)[r]
  {
    if rows != [] {
      WithoutKeepsCounts(rows[1..], ids);
      assert rows == [rows[0]] + rows[1..];
    }
  }

  lemma {:induction false} WithoutKeepsOrder(rows: seq<Row>, ids: seq<string>)
    ensures Subsequence(Without(rows, ids), rows)
  {
    if rows != [] {
      var rest := Without(rows[1..], ids);
      WithoutKeepsOrder(rows[1..], ids);
      if rows[0].record.eventId in ids {
        WithoutKeepsMembers(rows[1..], ids);
        assert rest != [] ==> rest[0] in rest;
        assert [] + rest == rest;
      } else {
        assert ([rows[0]] + rest)[1..] == rest;
      }
    }
  }

  function Restarted(rows: seq<Row>): (after: seq<Row>)
    ensures |after| == |rows|
    ensures forall i :: 0 <= i < |rows| ==>
              after[i] == (if rows[i].status.InFlight? then rows[i].(status := RetryPending) else rows[i])
  {
    seq(|rows|, i requires 0 <= i < |rows| =>
      if rows[i].status.InFlight? then rows[i].(status := RetryPending) else rows[i])
  }

  /** One row per event. */
  ghost predicate Unique(rows: seq<Row>) {
    forall i, j :: 0 <= i < j < |rows| ==> rows[i].record.eventId != rows[j].record.eventId
  }

  predicate Conflicting(rows: seq<Row>, record: Record, kind: string, severity: string) {
    var found := Find(rows, record.eventId);
    found.Some? && (found.value.kind != kind || found.value.severity != severity || found.value.record != record)
  }

  function Enqueued(rows: seq<Row>, record: Record, kind: string, severity: string): seq<Row> {
    if Find(rows, record.eventId).Some? then rows else rows + [Fresh(record, kind, severity)]
  }

  class OfflineQueue {
    var rows: seq<Row>

    /** Opening the database makes whatever a previous process had in flight due again. */
    constructor (stored: seq<Row>)
      ensures rows == Restarted(stored) && |rows| == |stored|
      ensures forall i :: 0 <= i < |rows| ==>
                && rows[i].record == stored[i].record && rows[i].attempts == stored[i].attempts
                && rows[i].status == (if stored[i].status.InFlight? then RetryPending else stored[i].status)
      ensures forall i :: 0 <= i < |rows| && !stored[i].status.InFlight? ==> rows[i] == stored[i]
      ensures forall i, now: int :: 0 <= i < |rows| && stored[i].status.InFlight? ==>
                (Due(rows[i], now) <==> stored[i].nextAt.None? || stored[i].nextAt.value <= now)
    {
      rows := Restarted(stored);
    }

    method Enqueue(record: Record, kind: string, severity: string) returns (kept: bool)
      modifies this
      ensures kept <==> !Conflicting(old(rows), record, kind, severity)
      ensures rows == if kept then Enqueued(old(rows), record, kind, severity) else old(rows)
    {
      var found := Find(rows, record.eventId);
      if found.Some? {
        kept := found.value.kind == kind && found.value.severity == severity && found.value.record == record;
        return;
      }
      rows := rows + [Fresh(record, kind, severity)];
      kept := true;
    }

    method ClaimBatch(size: int, now: int) returns (batch: seq<Record>)
      modifies this
      ensures (rows, batch) == Claim(old(rows), if size < 1 then 1 else size, now)
    {
      hide Claim, ClaimFrom, Unstuck, Due, Taken;
      var limit: nat := if size < 1 then 1 else size;
      var rest, done := rows, [];
      batch := [];
      ClaimStarts(rows, limit, now);
      while rest != []
        invariant |batch| <= limit
        invariant ClaimFrom(done, batch, rest, limit - |batch|, now) == Claim(old(rows), limit, now)
        decreases |rest|
      {
        ClaimGoesOn(done, batch, rest, limit - |batch|, now);
        var row := Unstuck(rest[0], now);
        if |batch| < limit && Due(row, now) {
          batch := batch + [row.record];
          row := Taken(row, now);
        }
        done, rest := done + [row], rest[1..];
      }
      ClaimEnds(done, batch, limit - |batch|, now);
      rows := done;
    }

    method MarkRetry(ids: seq<string>, error: ErrorClass, delay: Option<int>, now: int)
      modifies this
      ensures rows == Retry(old(rows), ids, error, delay, now)
    {
      ghost var before := rows;
      for k := 0 to |ids|
        invariant rows == Retry(before, ids[..k], error, delay, now)
      {
        assert ids[..k + 1] == ids[..k] + [ids[k]];
        rows := Retry(rows, [ids[k]], error, delay, now);
      }
      assert ids[..|ids|] == ids;
    }

    /** Acknowledged rows are gone; every other row is where it was among the rest, as often as it was. */
    method MarkSynced(ids: seq<string>)
      modifies this
      ensures forall r :: r in rows <==> r in old(rows) && r.record.eventId !in ids
      ensures forall r: Row :: r.record.eventId !in ids ==> multiset(rows)[r] == multiset(old(rows))[r]
      ensures Subsequence(rows, old(rows))
      ensures rows == Without(old(rows), ids)
    {
      WithoutKeepsMembers(rows, ids);
      WithoutKeepsCounts(rows, ids);
      WithoutKeepsOrder(rows, ids);
      hide Without, Subsequence;
      rows := Without(rows, ids);
    }
  }

  // ---------------------------------------------------------------- what each operation keeps

  predicate Holds(rows: seq<Row>, record: Record) {
    exists i :: 0 <= i < |rows| && rows[i].record == record
  }

  /** Same rows, each with its own record, kind and severity; only delivery bookkeeping differs. */
  ghost predicate SameCargo(before: seq<Row>, after: seq<Row>) {
    && |after| == |before|
    && forall i :: 0 <= i < |before| ==>
         && after[i].record == before[i].record
         && after[i].kind == before[i].kind && after[i].severity == before[i].severity
  }

  lemma ClaimUnrolls(rows: seq<Row>, size: nat, now: int)
    requires rows != []
    ensures var row := Unstuck(rows[0], now);
            var takes := size > 0 && Due(row, now);
            var rest := Claim(rows[1..], if takes then size - 1 else size, now);
      Claim(rows, size, now) == if takes then ([Taken(row, now)] + rest.0, [row.record] + rest.1)
                                else ([row] + rest.0, rest.1)
  {
    hide Unstuck, Due, Taken;
  }

  lemma {:induction false} ClaimKeepsCargo(rows: seq<Row>, size: nat, now: int)
    ensures SameCargo(rows, Claim(rows, size, now).0) && |Claim(rows, size, now).1| <= size
  {
    if rows != [] {
      ClaimKeepsCargo(rows[1..], if size > 0 && Due(Unstuck(rows[0], now), now) then size - 1 else size, now);
    }
  }

  lemma {:induction false} ClaimTouchesDueRows(rows: seq<Row>, size: nat, now: int)
    ensures var c := Claim(rows, size, now);
      && |c.0| == |rows|
      && (forall i :: 0 <= i < |rows| ==>
            || c.0[i] == Unstuck(rows[i], now)
            || (Due(Unstuck(rows[i], now), now) && c.0[i] == Taken(Unstuck(rows[i], now), now)))
      && (forall i :: 0 <= i < |rows| && c.0[i] != Unstuck(rows[i], now) ==> rows[i].record in c.1)
  {
    if rows != [] {
      assert Unstuck(rows[0], now).record == rows[0].record by { UnstuckKeepsRecord(rows[0], now); }
      hide Unstuck, Due, Taken;
      ClaimTouchesDueRows(rows[1..], if size > 0 && Due(Unstuck(rows[0], now), now) then size - 1 else size, now);
    }
  }

  /** The row was taken for this record. */
  ghost predicate TakenFor(rows: seq<Row>, after: seq<Row>, r: Record, now: int) {
    && |after| == |rows|
    && exists i :: 0 <= i < |rows| && rows[i].record == r
                   && Due(Unstuck(rows[i], now), now) && after[i] == Taken(Unstuck(rows[i], now), now)
  }

  lemma {:induction false} ClaimedWereTaken(rows: seq<Row>, size: nat, now: int, r: Record)
    requires r in Claim(rows, size, now).1
    ensures TakenFor(rows, Claim(rows, size, now).0, r, now)
  {
    assert rows != [];
    assert Unstuck(rows[0], now).record == rows[0].record by { UnstuckKeepsRecord(rows[0], now); }
    ClaimUnrolls(rows, size, now);
    hide Unstuck, Due, Taken, Claim;
    var row := Unstuck(rows[0], now);
    var takes := size > 0 && Due(row, now);
    var c, rest := Claim(rows, size, now), Claim(rows[1..], if takes then size - 1 else size, now);
    ClaimTouchesDueRows(rows, size, now);
    if r in rest.1 {
      ClaimedWereTaken(rows[1..], if takes then size - 1 else size, now, r);
      var i :| 0 <= i < |rows[1..]| && rows[1..][i].record == r
               && Due(Unstuck(rows[1..][i], now), now) && rest.0[i] == Taken(Unstuck(rows[1..][i], now), now);
      assert rows[i + 1].record == r && c.0[i + 1] == rest.0[i];
    } else {
      assert c.0[0] == Taken(row, now) && rows[0].record == r;
    }
  }

  /** A claim takes due rows only and no more than asked for; it changes no other row except to recover a
      stale one. */
  lemma ClaimTakesDueRows(rows: seq<Row>, size: nat, now: int)
    ensures var c := Claim(rows, size, now);
      && SameCargo(rows, c.0) && |c.1| <= size
      && (forall i :: 0 <= i < |rows| ==>
            || c.0[i] == Unstuck(rows[i], now)
            || (Due(Unstuck(rows[i], now), now) && c.0[i] == Taken(Unstuck(rows[i], now), now)))
      && (forall i :: 0 <= i < |rows| && c.0[i] != Unstuck(rows[i], now) ==> rows[i].record in c.1)
      && (forall r :: r in c.1 ==>
            exists i :: 0 <= i < |rows| && rows[i].record == r
                        && Due(Unstuck(rows[i], now), now) && c.0[i] == Taken(Unstuck(rows[i], now), now))
  {
    hide Claim, Unstuck, Due, Taken;
    var c := Claim(rows, size, now);
    ClaimKeepsCargo(rows, size, now);
    ClaimTouchesDueRows(rows, size, now);
    forall r | r in c.1
      ensures exists i :: 0 <= i < |rows| && rows[i].record == r
                          && Due(Unstuck(rows[i], now), now) && c.0[i] == Taken(Unstuck(rows[i], now), now)
    {
      ClaimedWereTaken(rows, size, now, r);
    }
  }

  /** The records of the rows that are due once stale ones are recovered, in queue order. */
  function DueRecords(rows: seq<Row>, now: int): seq<Record> {
    if rows == [] then []
    else (if Due(Unstuck(rows[0], now), now) then [rows[0].record] else []) + DueRecords(rows[1..], now)
  }

  /** A claim takes the oldest due records: all of them, or as many as asked for. */
  lemma {:induction false} ClaimIsOldestFirst(rows: seq<Row>, size: nat, now: int)
    ensures Claim(rows, size, now).1 <= DueRecords(rows, now)
    ensures |Claim(rows, size, now).1| == if |DueRecords(rows, now)| < size then |DueRecords(rows, now)| else size
  {
    hide Unstuck, Due, Taken;
    if rows != [] {
      var takes := size > 0 && Due(Unstuck(rows[0], now), now);
      assert Unstuck(rows[0], now).record == rows[0].record by { UnstuckKeepsRecord(rows[0], now); }
      ClaimIsOldestFirst(rows[1..], if takes then size - 1 else size, now);
    }
  }

  lemma UnstuckKeepsRecord(r: Row, now: int)
    ensures Unstuck(r, now).record == r.record
  {
  }

  /** The wait is two seconds after the second attempt, doubles from there up to 256 seconds after the ninth, and
      so never reaches its cap of 300. */
  lemma BackoffDoubles(attempts: nat)
    ensures Backoff(attempts) <= 256 && Backoff(attempts) <= Backoff(attempts + 1)
    ensures Backoff(attempts) == 0 <==> attempts <= 1
    ensures Backoff(2) == 2 && (attempts >= 9 ==> Backoff(attempts) == 256)
    ensures 2 <= attempts <= 8 ==> Backoff(attempts + 1) == 2 * Backoff(attempts)
  {
    assert Power2(2) == 4 && Power2(3) == 8 && Power2(4) == 16 && Power2(5) == 32;
    assert Power2(6) == 64 && Power2(7) == 128 && Power2(8) == 256;
  }

  /** A claim that comes back empty leaves no row due. */
  lemma {:induction false} EmptyClaimMeansNothingIsDue(rows: seq<Row>, size: nat, now: int)
    requires size > 0
    ensures Claim(rows, size, now).1 == [] <==> forall i :: 0 <= i < |rows| ==> !Due(Unstuck(rows[i], now), now)
  {
    if rows != [] {
      if !Due(Unstuck(rows[0], now), now) {
        EmptyClaimMeansNothingIsDue(rows[1..], size, now);
        assert forall i :: 0 <= i < |rows[1..]| ==> rows[1..][i] == rows[i + 1];
      }
    }
  }

  lemma {:induction false} ClaimedAreDistinct(rows: seq<Row>, size: nat, now: int)
    requires Unique(rows)
    ensures DistinctIds(Claim(rows, size, now).1)
  {
    if rows != [] {
      var takes := size > 0 && Due(Unstuck(rows[0], now), now);
      ClaimedAreDistinct(rows[1..], if takes then size - 1 else size, now);
      ClaimTakesDueRows(rows[1..], if takes then size - 1 else size, now);
      var rest := Claim(rows[1..], if takes then size - 1 else size, now);
      forall r | r in rest.1 ensures r.eventId != rows[0].record.eventId {
        var i :| 0 <= i < |rows[1..]| && rows[1..][i].record == r;
        assert rows[i + 1].record == r;
      }
    }
  }

  lemma {:induction false} WithoutIs(rows: seq<Row>, ids: seq<string>)
    requires Unique(rows)
    ensures Unique(Without(rows, ids))
    ensures forall r :: r in Without(rows, ids) <==> r in rows && r.record.eventId !in ids
    ensures |Without(rows, ids)| <= |rows|
  {
    WithoutKeepsMembers(rows, ids);
    if rows != [] {
      WithoutIs(rows[1..], ids);
      WithoutKeepsMembers(rows[1..], ids);
      hide Without;
      WithoutFirst(rows, ids);
      FirstIsDistinct(rows);
      var rest := Without(rows[1..], ids);
      forall r | r in rest ensures r.record.eventId != rows[0].record.eventId {
        assert r in rows[1..];
      }
    }
  }

  lemma WithoutFirst(rows: seq<Row>, ids: seq<string>)
    requires rows != []
    ensures Without(rows, ids)
         == (if rows[0].record.eventId in ids then [] else [rows[0]]) + Without(rows[1..], ids)
  {
  }

  lemma FirstIsDistinct(rows: seq<Row>)
    requires rows != [] && Unique(rows)
    ensures forall r :: r in rows[1..] ==> r.record.eventId != rows[0].record.eventId
  {
  }

  /** Claiming, retrying, quarantining and restarting never lose or alter what was queued. */
  lemma BookkeepingKeepsCargo(rows: seq<Row>, size: nat, ids: seq<string>, error: ErrorClass, delay: Option<int>,
                              now: int)
    ensures SameCargo(rows, Claim(rows, size, now).0)
    ensures SameCargo(rows, Retry(rows, ids, error, delay, now))
    ensures SameCargo(rows, Restarted(rows))
  {
    ClaimTakesDueRows(rows, size, now);
  }

  /** Enqueueing an event a second time is refused exactly when it differs, and is otherwise without effect. */
  lemma EnqueueIsIdempotent(rows: seq<Row>, record: Record, kind: string, severity: string, again: Record,
                            otherKind: string, otherSeverity: string)
    requires again.eventId == record.eventId && !Conflicting(rows, record, kind, severity) && Unique(rows)
    ensures var after := Enqueued(rows, record, kind, severity);
      && Unique(after) && Holds(after, record)
      && (Conflicting(after, again, otherKind, otherSeverity) <==>
            again != record || otherKind != kind || otherSeverity != severity)
      && Enqueued(after, again, otherKind, otherSeverity) == after
  {
    var after := Enqueued(rows, record, kind, severity);
    var found := Find(rows, record.eventId);
    if found.None? {
      assert after[|rows|].record == record;
      assert Find(after, record.eventId).value == Fresh(record, kind, severity) by {
        var r := Find(after, record.eventId);
        assert after[|rows|] in after;
        assert r.value in after && r.value !in rows;
      }
    } else {
      var i :| 0 <= i < |rows| && rows[i] == found.value;
      assert rows[i].record == record;
    }
  }

  // ---------------------------------------------------------------- rows, field by field

  /** The row can be claimed: it waits and its time has come, or its upload was started so long ago, by the
      configured timeout and by half a minute at least, that it counts as lost. */
  ghost predicate Claimable(r: Row, now: int) {
    match r.status
    case Pending => r.nextAt.Some? ==> r.nextAt.value <= now
    case RetryPending => r.nextAt.Some? ==> r.nextAt.value <= now
    case InFlight => r.lastAt.Some? && now - r.lastAt.value >= CONFIGURED_TIMEOUT && now - r.lastAt.value >= 30
    case PermanentError => false
  }

  /** The row after a claim that took it: one more attempt, begun now. */
  ghost predicate GoesInFlight(r: Row, after: Row, now: int) {
    && after.record == r.record && after.kind == r.kind && after.severity == r.severity
    && after.status.InFlight? && after.attempts == r.attempts + 1 && after.lastAt == Some(now)
    && (if r.status.InFlight? then after.nextAt.None? && after.error == Some(Transient)
        else after.nextAt == r.nextAt && after.error == r.error)
  }

  /** The row after a claim that did not take it: as it was, except that a lost upload waits again. */
  ghost predicate StaysBehind(r: Row, after: Row, now: int) {
    if r.status.InFlight? && Claimable(r, now)
    then after.status.RetryPending? && after == r.(status := after.status, nextAt := None, error := Some(Transient))
    else after == r
  }

  /** The records that may be claimed, in queue order. */
  ghost function ClaimableRecords(rows: seq<Row>, now: int): seq<Record> {
    if rows == [] then []
    else (if Claimable(rows[0], now) then [rows[0].record] else []) + ClaimableRecords(rows[1..], now)
  }

  /** A claim on a queue of distinct events, row by row: the first `size` that may be claimed go in flight. */
  lemma {:induction false} ClaimTreatsRows(rows: seq<Row>, size: nat, now: int)
    requires Unique(rows)
    ensures var c := Claim(rows, size, now);
      && |c.0| == |rows| && c.1 <= ClaimableRecords(rows, now)
      && |c.1| == (if |ClaimableRecords(rows, now)| < size then |ClaimableRecords(rows, now)| else size)
      && forall i :: 0 <= i < |rows| ==>
           if rows[i].record in c.1 then Claimable(rows[i], now) && GoesInFlight(rows[i], c.0[i], now)
           else StaysBehind(rows[i], c.0[i], now)
  {
    if rows != [] {
      ClaimTreatsFirst(rows[0], now);
      FirstIsDistinct(rows);
      ClaimUnrolls(rows, size, now);
      hide Unstuck, Due, Taken, Claimable, GoesInFlight, StaysBehind, Claim, Unique;
      var left := if size > 0 && Due(Unstuck(rows[0], now), now) then size - 1 else size;
      ClaimTreatsRows(rows[1..], left, now) by { RestIsUnique(rows); }
      RestIsNotTheFirst(rows, left, now);
      var c, rest := Claim(rows, size, now), Claim(rows[1..], left, now);
      forall i | 1 <= i < |rows|
        ensures if rows[i].record in c.1 then Claimable(rows[i], now) && GoesInFlight(rows[i], c.0[i], now)
                else StaysBehind(rows[i], c.0[i], now)
      {
        assert rows[i] == rows[1..][i - 1] && rows[i] in rows[1..] && c.0[i] == rest.0[i - 1];
      }
    }
  }

  lemma RestIsUnique(rows: seq<Row>)
    requires rows != [] && Unique(rows)
    ensures Unique(rows[1..])
  {
  }

  lemma ClaimTreatsFirst(r: Row, now: int)
    ensures Due(Unstuck(r, now), now) <==> Claimable(r, now)
    ensures Unstuck(r, now).record == r.record && StaysBehind(r, Unstuck(r, now), now)
    ensures Claimable(r, now) ==> GoesInFlight(r, Taken(Unstuck(r, now), now), now)
  {
  }

  lemma RestIsNotTheFirst(rows: seq<Row>, size: nat, now: int)
    requires rows != [] && Unique(rows)
    ensures rows[0].record !in Claim(rows[1..], size, now).1
  {
    hide Unstuck, Due, Taken, Claim;
    FirstIsDistinct(rows);
    ClaimTakesDueRows(rows[1..], size, now);
    assert forall i :: 0 <= i < |rows[1..]| ==> rows[1..][i] in rows[1..];
  }

  /** A row of a batch that failed: what it carries stays, and it waits for its next attempt, unless the error
      class says that there is none, or it is the third attempt to be refused for the agent's identity. */
  lemma RetryTreatsRows(rows: seq<Row>, ids: seq<string>, error: ErrorClass, delay: Option<int>, now: int, i: nat)
    requires i < |rows|
    ensures var r, after := rows[i], Retry(rows, ids, error, delay, now)[i];
      if r.record.eventId !in ids then after == r
      else
        && after == r.(status := after.status, nextAt := after.nextAt, error := Some(error))
        && after.status in [PermanentError, RetryPending]
        && (after.status == PermanentError <==>
              error in [Permanent, Validation, Security] || (error == Authentication && r.attempts >= 3))
        && after.nextAt.Some?
        && (delay.Some? && delay.value >= 0 ==> after.nextAt.value == now + delay.value)
        && (delay.Some? && delay.value < 0 ==> after.nextAt.value == now)
        && (delay.None? ==> now <= after.nextAt.value <= now + 256)
        && (delay.None? ==> (after.nextAt.value == now <==> r.attempts <= 1))
  {
    BackoffDoubles(rows[i].attempts);
  }

  /** A new event stands at the end of the queue and can be claimed at any time; before it nothing changes. */
  lemma NewRowIsClaimable(rows: seq<Row>, record: Record, kind: string, severity: string, now: int)
    requires forall i :: 0 <= i < |rows| ==> rows[i].record.eventId != record.eventId
    ensures var after := Enqueued(rows, record, kind, severity);
      && !Conflicting(rows, record, kind, severity)
      && |after| == |rows| + 1 && after[..|rows|] == rows && Claimable(after[|rows|], now)
      && after[|rows|].record == record && after[|rows|].kind == kind && after[|rows|].severity == severity
      && after[|rows|].attempts == 0
  {
    assert forall row :: row in rows ==> row.record.eventId != record.eventId;
  }
}
