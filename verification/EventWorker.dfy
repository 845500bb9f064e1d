/**
Background processing of stored events: claiming, one detection transaction per attempt, retry with a
budget, and the recovery of abandoned claims when a worker process starts.
*/
module EventWorker {
  import opened Options

  datatype State = Pending | Processing | Failed | Completed

  datatype Row = Row(id: string, state: State, attempts: nat, nextAt: Option<int>, owner: Option<string>)

  const CLAIM_LIMIT: nat := 50

  predicate Claimable(r: Row, now: int, max: nat) {
    r.state.Pending? ||
    (r.state.Failed? && r.attempts < max && r.nextAt.Some? && r.nextAt.value <= now)
  }

  function Claimed(r: Row, worker: string): Row {
    r.(state := Processing, attempts := r.attempts + 1, owner := Some(worker))
  }

  /** The first `limit` claimable rows, in the table's order of timestamp and row number. */
  function ClaimRows(rows: seq<Row>, worker: string, now: int, max: nat, limit: nat): (seq<Row>, seq<Row>) {
    if rows == [] || limit == 0 then (rows, [])
    else if Claimable(rows[0], now, max) then
      var rest := ClaimRows(rows[1..], worker, now, max, limit - 1);
      ([Claimed(rows[0], worker)] + rest.0, [Claimed(rows[0], worker)] + rest.1)
    else
      var rest := ClaimRows(rows[1..], worker, now, max, limit);
      ([rows[0]] + rest.0, rest.1)
  }

  /** A claim part of the way: `done` is settled, `claimed` taken, `rest` still to be looked at. */
  ghost function ClaimFrom(done: seq<Row>, claimed: seq<Row>, rest: seq<Row>, worker: string, now: int, max: nat)
    : (seq<Row>, seq<Row>)
    requires |claimed| <= CLAIM_LIMIT
  {
    var c := ClaimRows(rest, worker, now, max, CLAIM_LIMIT - |claimed|);
    (done + c.0, claimed + c.1)
  }

  lemma ClaimGoesOn(done: seq<Row>, claimed: seq<Row>, rest: seq<Row>, worker: string, now: int, max: nat)
    requires rest != [] && |claimed| < CLAIM_LIMIT
    ensures var row := rest[0];
      ClaimFrom(done, claimed, rest, worker, now, max) ==
        if Claimable(row, now, max)
        then ClaimFrom(done + [Claimed(row, worker)], claimed + [Claimed(row, worker)], rest[1..], worker, now, max)
        else ClaimFrom(done + [row], claimed, rest[1..], worker, now, max)
  {
    hide Claimable, Claimed;
    var row, left := rest[0], CLAIM_LIMIT - |claimed|;
    if Claimable(row, now, max) {
      var tail := ClaimRows(rest[1..], worker, now, max, left - 1);
      assert done + ([Claimed(row, worker)] + tail.0) == (done + [Claimed(row, worker)]) + tail.0;
      assert claimed + ([Claimed(row, worker)] + tail.1) == (claimed + [Claimed(row, worker)]) + tail.1;
    } else {
      var tail := ClaimRows(rest[1..], worker, now, max, left);
      assert done + ([row] + tail.0) == (done + [row]) + tail.0;
    }
  }

  lemma ClaimStarts(rows: seq<Row>, worker: string, now: int, max: nat)
    ensures ClaimFrom([], [], rows, worker, now, max) == ClaimRows(rows, worker, now, max, CLAIM_LIMIT)
  {
    var c := ClaimRows(rows, worker, now, max, CLAIM_LIMIT);
    assert [] + c.0 == c.0 && [] + c.1 == c.1;
  }

  lemma ClaimEnds(done: seq<Row>, claimed: seq<Row>, rest: seq<Row>, worker: string, now: int, max: nat)
    requires |claimed| <= CLAIM_LIMIT && (rest == [] || |claimed| == CLAIM_LIMIT)
    ensures ClaimFrom(done, claimed, rest, worker, now, max) == (done + rest, claimed)
  {
    assert claimed + [] == claimed;
  }

  /** Rows of one identifier replaced; identifiers are unique. */
  function Replace(rows: seq<Row>, id: string, change: Row -> Row): (after: seq<Row>)
    ensures |after| == |rows|
    ensures forall i :: 0 <= i < |rows| ==> after[i] == (if rows[i].id == id then change(rows[i]) else rows[i])
  {
    seq(|rows|, i requires 0 <= i < |rows| => if rows[i].id == id then change(rows[i]) else rows[i])
  }

  function Complete(r: Row): Row { r.(state := Completed, nextAt := None, owner := None) }

  /** The failure handler: it writes whatever the row has become meanwhile. */
  function FailedAt(r: Row, attempts: nat, retryAt: int, max: nat): Row {
    r.(state := Failed, nextAt := if attempts >= max then None else Some(retryAt), owner := None)
  }

  function Abandoned(r: Row, now: int): Row {
    if r.state.Processing? then
      r.(state := Failed, nextAt := if r.nextAt.Some? then r.nextAt else Some(now), owner := None)
    else r
  }

  function Recover(rows: seq<Row>, now: int): seq<Row> {
    seq(|rows|, i requires 0 <= i < |rows| => Abandoned(rows[i], now))
  }

  function Retried(r: Row): Row {
    if r.state.Failed? then Row(r.id, Pending, 0, None, None) else r
  }

  predicate IsCompleted(rows: seq<Row>, id: string) {
    exists i :: 0 <= i < |rows| && rows[i].id == id && rows[i].state.Completed?
  }

  predicate Present(rows: seq<Row>, id: string) {
    exists i :: 0 <= i < |rows| && rows[i].id == id
  }

  /** `effects` lists the events whose matches, risk rows, alerts and commands were committed. */
  class EventStore {
    const max: nat
    var rows: seq<Row>
    var effects: seq<string>

    /** At least one attempt is always allowed. */
    constructor (configured: int)
      ensures max >= 1 && (configured >= 1 ==> max == configured) && rows == [] && effects == []
    {
      max := if configured < 1 then 1 else configured;
      rows, effects := [], [];
    }

    method ClaimBatch(worker: string, now: int) returns (claimed: seq<Row>)
      modifies this`rows
      ensures (rows, claimed) == ClaimRows(old(rows), worker, now, max, CLAIM_LIMIT)
    {
      hide ClaimRows, ClaimFrom, Claimable, Claimed;
      var rest, done := rows, [];
      claimed := [];
      ClaimStarts(rows, worker, now, max);
      while rest != [] && |claimed| < CLAIM_LIMIT
        invariant |claimed| <= CLAIM_LIMIT
        invariant ClaimFrom(done, claimed, rest, worker, now, max)
               == ClaimRows(old(rows), worker, now, max, CLAIM_LIMIT)
        decreases |rest|
      {
        ClaimGoesOn(done, claimed, rest, worker, now, max);
        var row := rest[0];
        if Claimable(row, now, max) {
          row := Claimed(row, worker);
          claimed := claimed + [row];
        }
        done, rest := done + [row], rest[1..];
      }
      ClaimEnds(done, claimed, rest, worker, now, max);
      rows := done + rest;
    }

    /** The detection transaction; the state is read again under the write lock. */
    method Process(id: string) returns (detected: bool)
      modifies this
      ensures detected <==> !IsCompleted(old(rows), id)
      ensures detected ==> rows == Replace(old(rows), id, Complete) && effects == old(effects) + [id]
      ensures detected ==> forall i :: 0 <= i < |rows| ==>
                rows[i] == (if old(rows)[i].id == id
                            then Row(id, Completed, old(rows)[i].attempts, None, None) else old(rows)[i])
      ensures !detected ==> rows == old(rows) && effects == old(effects)
    {
      if IsCompleted(rows, id) { return false; }
      effects := effects + [id];
      rows := Replace(rows, id, Complete);
      detected := true;
    }

    /** The event is failed and nobody's, whatever it was: to be claimed from `retryAt` on, or, when the attempts
        are used up, never again without a manual retry. No other event is touched. */
    method RecordFailure(id: string, attempts: nat, retryAt: int)
      modifies this`rows
      ensures |rows| == |old(rows)|
      ensures forall i :: 0 <= i < |rows| && old(rows)[i].id != id ==> rows[i] == old(rows)[i]
      ensures forall i :: 0 <= i < |rows| && old(rows)[i].id == id ==>
                && rows[i].id == id && rows[i].state == Failed && rows[i].owner == None
                && rows[i].attempts == old(rows)[i].attempts
                && rows[i].nextAt == (if attempts >= max then None else Some(retryAt))
      ensures forall i, now: int :: 0 <= i < |rows| && rows[i].id == id ==>
                (Claimable(rows[i], now, max) <==> attempts < max && rows[i].attempts < max && retryAt <= now)
      ensures rows == Replace(old(rows), id, r => FailedAt(r, attempts, retryAt, max))
    {
      rows := Replace(rows, id, r => FailedAt(r, attempts, retryAt, max));
    }

    /** Run once by every worker process that starts: no event stays in processing; those that were may be
        claimed again when their time has come, within the attempts they have left. */
    method RecoverAbandoned(now: int)
      modifies this`rows
      ensures |rows| == |old(rows)|
      ensures forall i :: 0 <= i < |rows| && !old(rows)[i].state.Processing? ==> rows[i] == old(rows)[i]
      ensures forall i :: 0 <= i < |rows| && old(rows)[i].state.Processing? ==>
                && rows[i].id == old(rows)[i].id && rows[i].attempts == old(rows)[i].attempts
                && rows[i].state == Failed && rows[i].owner == None
                && rows[i].nextAt == (if old(rows)[i].nextAt.Some? then old(rows)[i].nextAt else Some(now))
      ensures forall i, later: int :: 0 <= i < |rows| && old(rows)[i].state.Processing? ==>
                (Claimable(rows[i], later, max) <==> rows[i].attempts < max && rows[i].nextAt.value <= later)
      ensures rows == Recover(old(rows), now)
    {
      rows := Recover(rows, now);
    }
  }

  // ---------------------------------------------------------------- runs of any number of workers

  /** A claim in a worker's memory; `detected` once its transaction ran. */
  datatype Claim = Claim(worker: string, id: string, attempts: nat, detected: bool)

  datatype World = World(rows: seq<Row>, effects: seq<string>, held: set<Claim>)

  /** `Imports` is an event that arrives with its offline evidence already evaluated. */
  datatype Step =
    | Arrives(id: string, position: nat)
    | Imports(id: string, position: nat)
    | Claims(worker: string, now: int)
    | Detects(claim: Claim)
    | Finishes(claim: Claim)
    | Fails(claim: Claim, retryAt: int)
    | Dies(worker: string)
    | Starts(now: int)
    | Retry(id: string)

  function InsertAt(rows: seq<Row>, r: Row, position: nat): seq<Row> {
    if position > |rows| then rows + [r] else rows[..position] + [r] + rows[position..]
  }

  function ClaimsOf(rows: seq<Row>, worker: string): set<Claim> {
    set r | r in rows :: Claim(worker, r.id, r.attempts, false)
  }

  function Advance(w: World, s: Step, max: nat): World {
    match s
    case Arrives(id, position) =>
      if Present(w.rows, id) then w else w.(rows := InsertAt(w.rows, Row(id, Pending, 0, None, None), position))
    case Imports(id, position) =>
      if Present(w.rows, id) then w
      else w.(rows := InsertAt(w.rows, Row(id, Completed, 0, None, None), position), effects := w.effects + [id])
    case Claims(worker, now) =>
      var claimed := ClaimRows(w.rows, worker, now, max, CLAIM_LIMIT);
      w.(rows := claimed.0, held := w.held + ClaimsOf(claimed.1, worker))
    case Detects(c) =>
      if c !in w.held then w
      else
        var held := w.held - {c} + {c.(detected := true)};
        if IsCompleted(w.rows, c.id) then w.(held := held)
        else World(Replace(w.rows, c.id, Complete), w.effects + [c.id], held)
    case Finishes(c) => if c in w.held && c.detected then w.(held := w.held - {c}) else w
    case Fails(c, retryAt) =>
      if c !in w.held then w
      else World(Replace(w.rows, c.id, r => FailedAt(r, c.attempts, retryAt, max)), w.effects, w.held - {c})
    case Dies(worker) => w.(held := set c | c in w.held && c.worker != worker)
    case Starts(now) => w.(rows := Recover(w.rows, now))
    case Retry(id) => w.(rows := Replace(w.rows, id, Retried))
  }

  function RunFrom(w: World, steps: seq<Step>, max: nat): World {
    if steps == [] then w else Advance(RunFrom(w, steps[..|steps| - 1], max), steps[|steps| - 1], max)
  }

  const EMPTY := World([], [], {})

  ghost predicate Unique(rows: seq<Row>) {
    forall i, j :: 0 <= i < j < |rows| ==> rows[i].id != rows[j].id
  }

  // ---------------------------------------------------------------- exactly-once effects

  /** An event's effects were committed iff it is completed, and then once. */
  ghost predicate ExactlyOnce(w: World) {
    && Unique(w.rows)
    && (forall c :: c in w.held ==> Present(w.rows, c.id))
    && (forall i :: 0 <= i < |w.rows| ==>
          multiset(w.effects)[w.rows[i].id] == (if w.rows[i].state.Completed? then 1 else 0))
    && (forall id :: !Present(w.rows, id) ==> multiset(w.effects)[id] == 0)
  }

  /** The failure handler overwrites a completed event. */
  predicate Clobbers(w: World, s: Step) {
    s.Fails? && s.claim in w.held && IsCompleted(w.rows, s.claim.id)
  }

  lemma {:induction false} ClaimRowsAre(rows: seq<Row>, worker: string, now: int, max: nat, limit: nat)
    ensures var c := ClaimRows(rows, worker, now, max, limit);
      && |c.0| == |rows| && |c.1| <= limit
      && (forall i :: 0 <= i < |rows| ==>
            c.0[i] == rows[i] || (Claimable(rows[i], now, max) && c.0[i] == Claimed(rows[i], worker)))
      && (forall r :: r in c.1 ==>
            exists i :: 0 <= i < |rows| && Claimable(rows[i], now, max) && c.0[i] == r == Claimed(rows[i], worker))
  {
    if rows == [] || limit == 0 {
    } else {
      ClaimRowsAre(rows[1..], worker, now, max, if Claimable(rows[0], now, max) then limit - 1 else limit);
      var c := ClaimRows(rows, worker, now, max, limit);
      var rest := ClaimRows(rows[1..], worker, now, max, if Claimable(rows[0], now, max) then limit - 1 else limit);
      forall r | r in c.1
        ensures exists i :: 0 <= i < |rows| && Claimable(rows[i], now, max) && c.0[i] == r == Claimed(rows[i], worker)
      {
        if r in rest.1 {
          var i :| 0 <= i < |rows[1..]| && Claimable(rows[1..][i], now, max)
                   && rest.0[i] == r == Claimed(rows[1..][i], worker);
          assert c.0[i + 1] == r && rows[i + 1] == rows[1..][i];
        } else {
          assert c.0[0] == r;
        }
      }
    }
  }

  /** The rows that may be claimed, as the claim leaves them, in the table's order. */
  function ClaimableRows(rows: seq<Row>, worker: string, now: int, max: nat): seq<Row> {
    if rows == [] then []
    else (if Claimable(rows[0], now, max) then [Claimed(rows[0], worker)] else [])
         + ClaimableRows(rows[1..], worker, now, max)
  }

  /** A claim takes the first claimable rows: all of them, or as many as the limit allows. */
  lemma {:induction false} ClaimIsOldestFirst(rows: seq<Row>, worker: string, now: int, max: nat, limit: nat)
    ensures ClaimRows(rows, worker, now, max, limit).1 <= ClaimableRows(rows, worker, now, max)
    ensures |ClaimRows(rows, worker, now, max, limit).1|
         == var n := |ClaimableRows(rows, worker, now, max)|; if n < limit then n else limit
  {
    hide Claimable, Claimed;
    if rows != [] {
      var takes := limit > 0 && Claimable(rows[0], now, max);
      ClaimIsOldestFirst(rows[1..], worker, now, max, if takes then limit - 1 else limit);
    }
  }

  /** The same events, completed in both or in neither. */
  ghost predicate Parallel(rows: seq<Row>, others: seq<Row>) {
    |rows| == |others| && forall i :: 0 <= i < |rows| ==>
      rows[i].id == others[i].id && rows[i].state.Completed? == others[i].state.Completed?
  }

  lemma ParallelKeepsEffects(w: World, after: World)
    requires ExactlyOnce(w) && Parallel(w.rows, after.rows) && after.effects == w.effects
    requires forall c :: c in after.held ==> Present(w.rows, c.id)
    ensures ExactlyOnce(after)
  {
    assert forall id :: Present(w.rows, id) <==> Present(after.rows, id);
  }

  lemma InsertedMembers(rows: seq<Row>, r: Row, position: nat)
    ensures forall x :: x in InsertAt(rows, r, position) <==> x == r || x in rows
  {
    if position <= |rows| {
      assert rows == rows[..position] + rows[position..];
    }
  }

  lemma InsertedRows(rows: seq<Row>, r: Row, position: nat)
    requires Unique(rows) && !Present(rows, r.id)
    ensures var after := InsertAt(rows, r, position);
      && Unique(after) && r in after
      && (forall x :: x in after <==> x == r || x in rows)
  {
    InsertedMembers(rows, r, position);
  }

  lemma ArrivalKeepsEffects(w: World, r: Row, position: nat)
    requires ExactlyOnce(w) && !Present(w.rows, r.id)
    ensures !r.state.Completed? ==> ExactlyOnce(w.(rows := InsertAt(w.rows, r, position)))
    ensures r.state.Completed? ==>
              ExactlyOnce(w.(rows := InsertAt(w.rows, r, position), effects := w.effects + [r.id]))
  {
    var after := InsertAt(w.rows, r, position);
    InsertedRows(w.rows, r, position);
    assert multiset(w.effects + [r.id]) == multiset(w.effects) + multiset{r.id};
    forall id ensures Present(after, id) <==> id == r.id || Present(w.rows, id) {
      if Present(w.rows, id) {
        var i :| 0 <= i < |w.rows| && w.rows[i].id == id;
        assert w.rows[i] in after;
      }
      if Present(after, id) {
        var i :| 0 <= i < |after| && after[i].id == id;
        assert after[i] in after;
      }
    }
    forall i | 0 <= i < |after| && after[i] != r
      ensures multiset(w.effects)[after[i].id] == (if after[i].state.Completed? then 1 else 0) && after[i].id != r.id
    {
      assert after[i] in after;
      var j :| 0 <= j < |w.rows| && w.rows[j] == after[i];
    }
  }

  lemma DetectionKeepsEffects(w: World, c: Claim, max: nat)
    requires ExactlyOnce(w) && c in w.held
    ensures ExactlyOnce(Advance(w, Detects(c), max))
  {
    var after := Advance(w, Detects(c), max);
    assert forall other :: other in after.held ==> Present(w.rows, other.id);
    if IsCompleted(w.rows, c.id) {
      hide IsCompleted, Unique;
      ParallelKeepsEffects(w, after);
    } else {
      assert forall i :: 0 <= i < |w.rows| ==> after.rows[i].id == w.rows[i].id;
      assert forall id :: Present(w.rows, id) <==> Present(after.rows, id);
      assert multiset(after.effects) == multiset(w.effects) + multiset{c.id};
    }
  }

  lemma ClaimKeepsEffects(w: World, worker: string, now: int, max: nat)
    requires ExactlyOnce(w)
    ensures ExactlyOnce(Advance(w, Claims(worker, now), max))
  {
    hide ClaimRows;
    var after := Advance(w, Claims(worker, now), max);
    var claimed := ClaimRows(w.rows, worker, now, max, CLAIM_LIMIT);
    ClaimRowsAre(w.rows, worker, now, max, CLAIM_LIMIT);
    forall c | c in after.held ensures Present(w.rows, c.id) {
      if c !in w.held {
        var r :| r in claimed.1 && c == Claim(worker, r.id, r.attempts, false);
      }
    }
    ParallelKeepsEffects(w, after);
  }

  lemma FailureIsClobbering(w: World, c: Claim, retryAt: int, max: nat)
    requires ExactlyOnce(w)
    ensures ExactlyOnce(Advance(w, Fails(c, retryAt), max)) <==> !Clobbers(w, Fails(c, retryAt))
  {
    var after := Advance(w, Fails(c, retryAt), max);
    if Clobbers(w, Fails(c, retryAt)) {
      var i :| 0 <= i < |w.rows| && w.rows[i].id == c.id && w.rows[i].state.Completed?;
      assert after.rows[i].id == c.id && after.rows[i].state.Failed?;
      assert multiset(w.effects)[c.id] == 1;
    } else {
      ParallelKeepsEffects(w, after);
    }
  }

  lemma StepKeepsEffects(w: World, s: Step, max: nat)
    requires ExactlyOnce(w)
    ensures ExactlyOnce(Advance(w, s, max)) <==> !Clobbers(w, s)
  {
    hide ClaimRows, InsertAt;
    var after := Advance(w, s, max);
    match s
    case Arrives(id, position) =>
      if !Present(w.rows, id) { ArrivalKeepsEffects(w, Row(id, Pending, 0, None, None), position); }
    case Imports(id, position) =>
      if !Present(w.rows, id) { ArrivalKeepsEffects(w, Row(id, Completed, 0, None, None), position); }
    case Detects(c) =>
      if c in w.held { DetectionKeepsEffects(w, c, max); }
    case Claims(worker, now) => ClaimKeepsEffects(w, worker, now, max);
    case Fails(c, retryAt) => FailureIsClobbering(w, c, retryAt, max);
    case _ =>
      ParallelKeepsEffects(w, after);
  }

  ghost predicate SoundThroughout(steps: seq<Step>, max: nat) {
    ExactlyOnce(RunFrom(EMPTY, steps, max)) && (steps != [] ==> SoundThroughout(steps[..|steps| - 1], max))
  }

  ghost predicate NeverClobbers(steps: seq<Step>, max: nat) {
    steps == [] ||
    (NeverClobbers(steps[..|steps| - 1], max)
     && !Clobbers(RunFrom(EMPTY, steps[..|steps| - 1], max), steps[|steps| - 1]))
  }

  /** Effects are exactly-once throughout a run if and only if no failure is recorded over a completed event. */
  lemma {:induction false} EffectsAreExactlyOnce(steps: seq<Step>, max: nat)
    ensures SoundThroughout(steps, max) <==> NeverClobbers(steps, max)
  {
    if steps == [] {
    } else {
      EffectsAreExactlyOnce(steps[..|steps| - 1], max);
      if SoundThroughout(steps[..|steps| - 1], max) {
        StepKeepsEffects(RunFrom(EMPTY, steps[..|steps| - 1], max), steps[|steps| - 1], max);
      }
    }
  }

  /** A publication error after the transaction committed runs the detection again. */
  lemma FailureAfterCommitRepeatsEffects(id: string, worker: string, max: nat)
    requires max >= 2
    ensures var first, second := Claim(worker, id, 1, false), Claim(worker, id, 2, false);
            var steps := [Arrives(id, 0), Claims(worker, 0), Detects(first), Fails(first.(detected := true), 1),
                          Claims(worker, 1), Detects(second)];
      RunFrom(EMPTY, steps, max).effects == [id, id]
  {
    var first, second := Claim(worker, id, 1, false), Claim(worker, id, 2, false);
    var s1, s2, s3 := Arrives(id, 0), Claims(worker, 0), Detects(first);
    var s4, s5, s6 := Fails(first.(detected := true), 1), Claims(worker, 1), Detects(second);
    var r4 := Row(id, Failed, 1, Some(1), None);
    FirstAttempt(id, worker, max);
    SecondAttempt(r4, worker, max);
    hide Advance, RunFrom;
    Extended([], s1, max);
    assert [] + [s1] == [s1];
    Extended([s1], s2, max);
    assert [s1] + [s2] == [s1, s2];
    Extended([s1, s2], s3, max);
    assert [s1, s2] + [s3] == [s1, s2, s3];
    Extended([s1, s2, s3], s4, max);
    assert [s1, s2, s3] + [s4] == [s1, s2, s3, s4];
    Extended([s1, s2, s3, s4], s5, max);
    assert [s1, s2, s3, s4] + [s5] == [s1, s2, s3, s4, s5];
    Extended([s1, s2, s3, s4, s5], s6, max);
    assert [s1, s2, s3, s4, s5] + [s6] == [s1, s2, s3, s4, s5, s6];
  }

  lemma FirstAttempt(id: string, worker: string, max: nat)
    requires max >= 2
    ensures var first := Claim(worker, id, 1, false);
            var w := Advance(Advance(Advance(EMPTY, Arrives(id, 0), max), Claims(worker, 0), max), Detects(first), max);
      Advance(w, Fails(first.(detected := true), 1), max) == World([Row(id, Failed, 1, Some(1), None)], [id], {})
  {
    var first := Claim(worker, id, 1, false);
    var r0, r1 := Row(id, Pending, 0, None, None), Row(id, Processing, 1, None, Some(worker));
    assert Advance(EMPTY, Arrives(id, 0), max) == World([r0], [], {});
    SingleClaim(r0, worker, 0, max);
    var w := World([r1], [], {first});
    assert Advance(World([r0], [], {}), Claims(worker, 0), max) == w;
    assert w.rows[0] == r1;
    assert Advance(w, Detects(first), max) == World([Complete(r1)], [id], {first.(detected := true)});
  }

  lemma SecondAttempt(r: Row, worker: string, max: nat)
    requires r == Row(r.id, Failed, 1, Some(1), None) && max >= 2
    ensures var second := Claim(worker, r.id, 2, false);
      Advance(Advance(World([r], [r.id], {}), Claims(worker, 1), max), Detects(second), max).effects == [r.id, r.id]
  {
    var second := Claim(worker, r.id, 2, false);
    SingleClaim(r, worker, 1, max);
    assert Advance(World([r], [r.id], {}), Claims(worker, 1), max) == World([Claimed(r, worker)], [r.id], {second});
    assert [r.id] + [r.id] == [r.id, r.id];
  }

  lemma Extended(steps: seq<Step>, s: Step, max: nat)
    ensures RunFrom(EMPTY, steps + [s], max) == Advance(RunFrom(EMPTY, steps, max), s, max)
    ensures RunFrom(EMPTY, [], max) == EMPTY
  {
    assert (steps + [s])[..|steps|] == steps;
  }

  lemma SingleClaim(r: Row, worker: string, now: int, max: nat)
    requires Claimable(r, now, max)
    ensures ClaimRows([r], worker, now, max, CLAIM_LIMIT) == ([Claimed(r, worker)], [Claimed(r, worker)])
    ensures ClaimsOf([Claimed(r, worker)], worker) == {Claim(worker, r.id, r.attempts + 1, false)}
  {
    assert [r][1..] == [];
    assert ClaimRows([], worker, now, max, CLAIM_LIMIT - 1) == ([], []);
    assert [Claimed(r, worker)] + [] == [Claimed(r, worker)];
  }

  // ---------------------------------------------------------------- one process at a time

  /** Every claim in memory is on a row in processing, or completed once the claim's transaction ran;
      no two claims are on one row. */
  ghost predicate Owned(w: World) {
    && Unique(w.rows)
    && (forall c :: c in w.held ==> OwnedBy(w.rows, c))
    && (forall c, d :: c in w.held && d in w.held && c.id == d.id ==> c == d)
  }

  /** A worker starts only when no claim is outstanding, and nothing fails after its transaction. */
  predicate Disciplined(w: World, s: Step) {
    && (s.Starts? ==> w.held == {})
    && (s.Fails? && s.claim in w.held ==> !s.claim.detected)
  }

  lemma NewClaimsAreOwned(w: World, worker: string, now: int, max: nat)
    requires Owned(w)
    ensures Owned(Advance(w, Claims(worker, now), max))
    ensures forall c :: c in ClaimsOf(ClaimRows(w.rows, worker, now, max, CLAIM_LIMIT).1, worker) ==>
              forall d :: d in w.held ==> c.id != d.id
  {
    hide ClaimRows;
    var claimed := ClaimRows(w.rows, worker, now, max, CLAIM_LIMIT);
    ClaimRowsAre(w.rows, worker, now, max, CLAIM_LIMIT);
    forall r | r in claimed.1
      ensures exists i :: 0 <= i < |w.rows| && w.rows[i].id == r.id && claimed.0[i] == r && r.state.Processing?
      ensures forall d :: d in w.held ==> d.id != r.id
    {
      var i :| 0 <= i < |w.rows| && Claimable(w.rows[i], now, max) && claimed.0[i] == r == Claimed(w.rows[i], worker);
      forall d | d in w.held ensures d.id != r.id {
        assert OwnedBy(w.rows, d);
        var j :| 0 <= j < |w.rows| && w.rows[j].id == d.id
                 && w.rows[j].state == (if d.detected then Completed else Processing);
      }
    }
    forall c | c in w.held ensures OwnedBy(claimed.0, c) {
      assert OwnedBy(w.rows, c);
      var i :| 0 <= i < |w.rows| && w.rows[i].id == c.id
               && w.rows[i].state == (if c.detected then Completed else Processing);
      assert claimed.0[i] == w.rows[i];
    }
  }

  ghost predicate OwnedBy(rows: seq<Row>, c: Claim) {
    exists i :: 0 <= i < |rows| && rows[i].id == c.id && rows[i].state == (if c.detected then Completed else Processing)
  }

  /** A row's owner keeps it through everything that does not touch that row. */
  lemma OwnedStays(rows: seq<Row>, after: seq<Row>, c: Claim)
    requires OwnedBy(rows, c) && |after| == |rows|
    requires forall i :: 0 <= i < |rows| && rows[i].id == c.id ==> after[i] == rows[i]
    ensures OwnedBy(after, c)
  {
  }

  lemma DetectionKeepsOwnership(w: World, c: Claim, max: nat)
    requires Owned(w)
    ensures Owned(Advance(w, Detects(c), max))
  {
    var after := Advance(w, Detects(c), max);
    if c in w.held {
      assert OwnedBy(w.rows, c);
      DetectedIsOwned(w, c, max);
      forall d | d in after.held && d.id != c.id ensures OwnedBy(after.rows, d) {
        assert OwnedBy(w.rows, d);
        OwnedStays(w.rows, after.rows, d);
      }
      hide OwnedBy, Replace, IsCompleted;
      assert Unique(after.rows);
    }
  }

  lemma DetectedIsOwned(w: World, c: Claim, max: nat)
    requires Unique(w.rows) && c in w.held && OwnedBy(w.rows, c)
    ensures OwnedBy(Advance(w, Detects(c), max).rows, c.(detected := true))
    ensures Unique(Advance(w, Detects(c), max).rows)
  {
    var after := Advance(w, Detects(c), max);
    var i :| 0 <= i < |w.rows| && w.rows[i].id == c.id
             && w.rows[i].state == (if c.detected then Completed else Processing);
    assert after.rows[i].id == c.id && after.rows[i].state == Completed;
  }

  lemma FailureKeepsOwnership(w: World, c: Claim, retryAt: int, max: nat)
    requires Owned(w) && (c in w.held ==> !c.detected)
    ensures Owned(Advance(w, Fails(c, retryAt), max)) && !Clobbers(w, Fails(c, retryAt))
  {
    var after := Advance(w, Fails(c, retryAt), max);
    if c in w.held {
      assert OwnedBy(w.rows, c);
      forall d | d in after.held ensures OwnedBy(after.rows, d) {
        assert OwnedBy(w.rows, d);
        OwnedStays(w.rows, after.rows, d);
      }
    }
  }

  lemma DisciplineKeepsOwnership(w: World, s: Step, max: nat)
    requires Owned(w) && Disciplined(w, s)
    ensures Owned(Advance(w, s, max)) && !Clobbers(w, s)
  {
    var after := Advance(w, s, max);
    match s
    case Claims(worker, now) => NewClaimsAreOwned(w, worker, now, max);
    case Detects(c) => DetectionKeepsOwnership(w, c, max);
    case Fails(c, retryAt) => FailureKeepsOwnership(w, c, retryAt, max);
    case Arrives(id, position) =>
      if !Present(w.rows, id) { ArrivalKeepsOwnership(w, Row(id, Pending, 0, None, None), position, w.effects); }
    case Imports(id, position) =>
      if !Present(w.rows, id) {
        ArrivalKeepsOwnership(w, Row(id, Completed, 0, None, None), position, w.effects + [id]);
      }
    case Starts(now) =>
    case Finishes(c) =>
    case Dies(worker) =>
    case Retry(id) =>
      forall d | d in after.held ensures OwnedBy(after.rows, d) {
        assert OwnedBy(w.rows, d);
      }
  }

  lemma ArrivalKeepsOwnership(w: World, r: Row, position: nat, effects: seq<string>)
    requires Owned(w) && !Present(w.rows, r.id)
    ensures Owned(World(InsertAt(w.rows, r, position), effects, w.held))
  {
    var after := InsertAt(w.rows, r, position);
    InsertedRows(w.rows, r, position);
    forall c | c in w.held ensures OwnedBy(after, c) {
      assert OwnedBy(w.rows, c);
      var i :| 0 <= i < |w.rows| && w.rows[i].id == c.id
               && w.rows[i].state == (if c.detected then Completed else Processing);
      assert w.rows[i] in after;
    }
  }

  ghost predicate DisciplinedRun(steps: seq<Step>, max: nat) {
    steps == [] ||
    (DisciplinedRun(steps[..|steps| - 1], max)
     && Disciplined(RunFrom(EMPTY, steps[..|steps| - 1], max), steps[|steps| - 1]))
  }

  /** One worker process at a time, whose publications do not fail, has exactly-once effects. */
  lemma {:induction false} DisciplinedRunsAreExactlyOnce(steps: seq<Step>, max: nat)
    requires DisciplinedRun(steps, max)
    ensures Owned(RunFrom(EMPTY, steps, max)) && NeverClobbers(steps, max) && ExactlyOnce(RunFrom(EMPTY, steps, max))
  {
    if steps != [] {
      DisciplinedRunsAreExactlyOnce(steps[..|steps| - 1], max);
      DisciplineKeepsOwnership(RunFrom(EMPTY, steps[..|steps| - 1], max), steps[|steps| - 1], max);
      StepKeepsEffects(RunFrom(EMPTY, steps[..|steps| - 1], max), steps[|steps| - 1], max);
    }
  }

  // ---------------------------------------------------------------- the retry budget

  ghost function Budget(rows: seq<Row>, max: nat): nat {
    if rows == [] then 0
    else (if rows[0].attempts < max then max - rows[0].attempts else 0) + Budget(rows[1..], max)
  }

  /** A pending row has its whole budget; no row has gone over it. */
  ghost predicate WithinBudget(rows: seq<Row>, max: nat) {
    forall i :: 0 <= i < |rows| ==> rows[i].attempts <= max && (rows[i].state.Pending? ==> rows[i].attempts == 0)
  }

  lemma {:induction false} ClaimSpendsBudget(rows: seq<Row>, worker: string, now: int, max: nat, limit: nat)
    requires WithinBudget(rows, max) && max >= 1
    ensures var c := ClaimRows(rows, worker, now, max, limit);
      WithinBudget(c.0, max) && Budget(c.0, max) + |c.1| == Budget(rows, max)
  {
    if rows == [] || limit == 0 {
    } else {
      ClaimSpendsBudget(rows[1..], worker, now, max, if Claimable(rows[0], now, max) then limit - 1 else limit);
    }
  }

  lemma {:induction false} BudgetIsOfAttempts(rows: seq<Row>, others: seq<Row>, max: nat)
    requires |rows| == |others| && forall i :: 0 <= i < |rows| ==> rows[i].attempts == others[i].attempts
    ensures Budget(rows, max) == Budget(others, max)
  {
    if rows != [] {
      BudgetIsOfAttempts(rows[1..], others[1..], max);
    }
  }

  ghost predicate NoNewWork(steps: seq<Step>) {
    forall i :: 0 <= i < |steps| ==> !steps[i].Arrives? && !steps[i].Imports? && !steps[i].Retry?
  }

  /** How many claims a step makes. */
  ghost function ClaimsMade(w: World, s: Step, max: nat): nat {
    if s.Claims? then |ClaimRows(w.rows, s.worker, s.now, max, CLAIM_LIMIT).1| else 0
  }

  ghost function AllClaims(w: World, steps: seq<Step>, max: nat): nat {
    if steps == [] then 0
    else AllClaims(w, steps[..|steps| - 1], max)
         + ClaimsMade(RunFrom(w, steps[..|steps| - 1], max), steps[|steps| - 1], max)
  }

  lemma StepSpendsBudget(w: World, s: Step, max: nat)
    requires WithinBudget(w.rows, max) && max >= 1
    requires !s.Arrives? && !s.Imports? && !s.Retry?
    ensures WithinBudget(Advance(w, s, max).rows, max)
    ensures Budget(w.rows, max) == ClaimsMade(w, s, max) + Budget(Advance(w, s, max).rows, max)
  {
    if s.Claims? {
      ClaimSpendsBudget(w.rows, s.worker, s.now, max, CLAIM_LIMIT);
    } else {
      BudgetIsOfAttempts(w.rows, Advance(w, s, max).rows, max);
    }
  }

  /** Without new events, every claim of a run is paid from the budget there was: claiming must end. */
  lemma {:induction false} ClaimsArePaid(w: World, steps: seq<Step>, max: nat)
    requires WithinBudget(w.rows, max) && max >= 1 && NoNewWork(steps)
    ensures WithinBudget(RunFrom(w, steps, max).rows, max)
    ensures Budget(w.rows, max) == AllClaims(w, steps, max) + Budget(RunFrom(w, steps, max).rows, max)
  {
    if steps != [] {
      ClaimsArePaid(w, steps[..|steps| - 1], max);
      StepSpendsBudget(RunFrom(w, steps[..|steps| - 1], max), steps[|steps| - 1], max);
    }
  }

  ghost function ClaimSteps(steps: seq<Step>): nat {
    if steps == [] then 0
    else ClaimSteps(steps[..|steps| - 1]) + (if steps[|steps| - 1].Claims? then 1 else 0)
  }

  /** More claiming steps than budget: one of them finds nothing to claim. */
  lemma {:induction false} SomeClaimIsEmpty(w: World, steps: seq<Step>, max: nat) returns (at: nat)
    requires WithinBudget(w.rows, max) && max >= 1 && NoNewWork(steps)
    requires ClaimSteps(steps) > AllClaims(w, steps, max)
    ensures at < |steps| && steps[at].Claims? && ClaimsMade(RunFrom(w, steps[..at], max), steps[at], max) == 0
  {
    var before := steps[..|steps| - 1];
    if steps[|steps| - 1].Claims? && ClaimsMade(RunFrom(w, before, max), steps[|steps| - 1], max) == 0 {
      at := |steps| - 1;
    } else {
      at := SomeClaimIsEmpty(w, before, max);
      assert before[..at] == steps[..at];
    }
  }

  lemma TickingGoesQuiet(w: World, steps: seq<Step>, max: nat) returns (at: nat)
    requires WithinBudget(w.rows, max) && max >= 1 && NoNewWork(steps)
    requires ClaimSteps(steps) > Budget(w.rows, max)
    ensures at < |steps| && steps[at].Claims? && ClaimsMade(RunFrom(w, steps[..at], max), steps[at], max) == 0
  {
    ClaimsArePaid(w, steps, max);
    at := SomeClaimIsEmpty(w, steps, max);
  }

  /** How often one event is claimed by a step. */
  ghost function ClaimsOn(w: World, s: Step, id: string, max: nat): nat {
    if s.Claims? && (exists r :: r in ClaimRows(w.rows, s.worker, s.now, max, CLAIM_LIMIT).1 && r.id == id)
    then 1 else 0
  }

  ghost function AllClaimsOn(w: World, steps: seq<Step>, id: string, max: nat): nat {
    if steps == [] then 0
    else AllClaimsOn(w, steps[..|steps| - 1], id, max)
         + ClaimsOn(RunFrom(w, steps[..|steps| - 1], max), steps[|steps| - 1], id, max)
  }

  ghost predicate Has(rows: seq<Row>, id: string, attempts: nat) {
    exists i :: 0 <= i < |rows| && rows[i].id == id && rows[i].attempts == attempts
  }

  lemma ClaimCounts(rows: seq<Row>, worker: string, now: int, id: string, attempts: nat, max: nat)
    requires Unique(rows) && Has(rows, id, attempts)
    ensures var c := ClaimRows(rows, worker, now, max, CLAIM_LIMIT);
      && Unique(c.0)
      && Has(c.0, id, attempts + (if exists r :: r in c.1 && r.id == id then 1 else 0))
  {
    hide ClaimRows;
    ClaimRowsAre(rows, worker, now, max, CLAIM_LIMIT);
    ClaimedAreListed(rows, worker, now, max, CLAIM_LIMIT);
    var c := ClaimRows(rows, worker, now, max, CLAIM_LIMIT);
    var i :| 0 <= i < |rows| && rows[i].id == id && rows[i].attempts == attempts;
    assert c.0[i].id == id;
    if r :| r in c.1 && r.id == id {
      var j :| 0 <= j < |rows| && Claimable(rows[j], now, max) && c.0[j] == r == Claimed(rows[j], worker);
      assert i == j;
    }
  }

  lemma InsertCounts(rows: seq<Row>, r: Row, position: nat, id: string, attempts: nat, max: nat)
    requires Unique(rows) && WithinBudget(rows, max) && Has(rows, id, attempts)
    requires !Present(rows, r.id) && r.attempts == 0
    ensures var after := InsertAt(rows, r, position);
      Unique(after) && WithinBudget(after, max) && Has(after, id, attempts)
  {
    InsertedRows(rows, r, position);
    var after := InsertAt(rows, r, position);
    var i :| 0 <= i < |rows| && rows[i].id == id && rows[i].attempts == attempts;
    assert rows[i] in after;
    forall k | 0 <= k < |after|
      ensures after[k].attempts <= max && (after[k].state.Pending? ==> after[k].attempts == 0)
    {
      assert after[k] in after;
    }
  }

  /** The same events; their attempts are kept, or reset by a manual retry of another event. */
  ghost predicate Touched(rows: seq<Row>, after: seq<Row>, id: string) {
    && |after| == |rows|
    && (forall i :: 0 <= i < |rows| ==> after[i].id == rows[i].id)
    && (forall i :: 0 <= i < |rows| ==>
          after[i].attempts == rows[i].attempts || (after[i].attempts == 0 && rows[i].id != id))
    && (forall i :: 0 <= i < |rows| && after[i].state.Pending? ==> after[i].attempts == 0 || rows[i].state.Pending?)
  }

  lemma TouchCounts(rows: seq<Row>, after: seq<Row>, id: string, attempts: nat, max: nat)
    requires Unique(rows) && WithinBudget(rows, max) && Has(rows, id, attempts) && Touched(rows, after, id)
    ensures Unique(after) && WithinBudget(after, max) && Has(after, id, attempts)
  {
    var i :| 0 <= i < |rows| && rows[i].id == id && rows[i].attempts == attempts;
    assert after[i].id == id && after[i].attempts == attempts;
  }

  lemma StepCounts(w: World, s: Step, id: string, attempts: nat, max: nat)
    requires Unique(w.rows) && WithinBudget(w.rows, max) && max >= 1
    requires Has(w.rows, id, attempts) && s != Retry(id)
    ensures Unique(Advance(w, s, max).rows) && WithinBudget(Advance(w, s, max).rows, max)
    ensures Has(Advance(w, s, max).rows, id, attempts + ClaimsOn(w, s, id, max))
  {
    hide ClaimRows, InsertAt, Unique, Has;
    var after := Advance(w, s, max);
    match s
    case Claims(worker, now) =>
      ClaimCounts(w.rows, worker, now, id, attempts, max);
      ClaimSpendsBudget(w.rows, worker, now, max, CLAIM_LIMIT);
    case Arrives(other, position) =>
      if !Present(w.rows, other) {
        InsertCounts(w.rows, Row(other, Pending, 0, None, None), position, id, attempts, max);
      }
    case Imports(other, position) =>
      if !Present(w.rows, other) {
        InsertCounts(w.rows, Row(other, Completed, 0, None, None), position, id, attempts, max);
      }
    case _ =>
      assert Touched(w.rows, after.rows, id);
      TouchCounts(w.rows, after.rows, id, attempts, max);
  }

  lemma {:induction false} ClaimedAreListed(rows: seq<Row>, worker: string, now: int, max: nat, limit: nat)
    ensures var c := ClaimRows(rows, worker, now, max, limit);
            |c.0| == |rows| && forall i :: 0 <= i < |rows| && c.0[i] != rows[i] ==> c.0[i] in c.1
  {
    if rows == [] || limit == 0 {
    } else {
      ClaimedAreListed(rows[1..], worker, now, max, if Claimable(rows[0], now, max) then limit - 1 else limit);
    }
  }

  /** Between manual retries an event is claimed no more often than attempts are allowed. */
  lemma {:induction false} ClaimsAreBounded(w: World, steps: seq<Step>, id: string, attempts: nat, max: nat)
    requires Unique(w.rows) && WithinBudget(w.rows, max) && max >= 1 && Has(w.rows, id, attempts)
    requires forall i :: 0 <= i < |steps| ==> steps[i] != Retry(id)
    ensures var after := RunFrom(w, steps, max);
      && Unique(after.rows) && WithinBudget(after.rows, max)
      && Has(after.rows, id, attempts + AllClaimsOn(w, steps, id, max))
      && attempts + AllClaimsOn(w, steps, id, max) <= max
  {
    if steps != [] {
      var before := steps[..|steps| - 1];
      ClaimsAreBounded(w, before, id, attempts, max);
      StepCounts(RunFrom(w, before, max), steps[|steps| - 1], id, attempts + AllClaimsOn(w, before, id, max), max);
    }
  }

  // ---------------------------------------------------------------- work is found and done

  /** The event is new, or failed with attempts left and its time has come. */
  ghost predicate Ready(r: Row, now: int, max: nat) {
    match r.state
    case Pending => true
    case Failed => r.attempts < max && r.nextAt.Some? && now >= r.nextAt.value
    case Processing => false
    case Completed => false
  }

  ghost function ReadyRows(rows: seq<Row>, now: int, max: nat): nat {
    if rows == [] then 0
    else ReadyRows(rows[..|rows| - 1], now, max) + (if Ready(rows[|rows| - 1], now, max) then 1 else 0)
  }

  /** The row after a claim: in processing by the worker, with one more attempt. */
  ghost predicate IsTaken(r: Row, after: Row, worker: string) {
    && after.id == r.id && after.state == Processing && after.attempts == r.attempts + 1
    && after.nextAt == r.nextAt && after.owner == Some(worker)
  }

  /** A claim, row by row: a row that is ready is taken while fewer than the limit before it were; every other row
      is as it was. */
  lemma {:induction false} ClaimTreatsRows(rows: seq<Row>, worker: string, now: int, max: nat, limit: nat, i: nat)
    requires i < |rows|
    ensures var c := ClaimRows(rows, worker, now, max, limit);
      && |c.0| == |rows|
      && (if Ready(rows[i], now, max) && ReadyRows(rows[..i], now, max) < limit
          then IsTaken(rows[i], c.0[i], worker) && c.0[i] in c.1
          else c.0[i] == rows[i])
    decreases |rows|
  {
    ClaimRowsAre(rows, worker, now, max, limit);
    if limit > 0 {
      assert Claimable(rows[0], now, max) <==> Ready(rows[0], now, max);
      hide Claimable, Ready;
      if i > 0 {
        ReadyFirst(rows[..i], now, max);
        assert rows[..i][1..] == rows[1..][..i - 1];
        ClaimTreatsRows(rows[1..], worker, now, max, if Claimable(rows[0], now, max) then limit - 1 else limit, i - 1);
      }
    }
  }

  lemma {:induction false} ReadyFirst(rows: seq<Row>, now: int, max: nat)
    requires rows != []
    ensures ReadyRows(rows, now, max) == (if Ready(rows[0], now, max) then 1 else 0) + ReadyRows(rows[1..], now, max)
  {
    hide Ready;
    if |rows| > 1 {
      ReadyFirst(rows[..|rows| - 1], now, max);
      assert rows[..|rows| - 1][1..] == rows[1..][..|rows[1..]| - 1];
    } else {
      assert rows[..0] == [] && rows[1..] == [];
    }
  }

  /** A ready event with fewer than fifty before it is claimed by the next tick, and its detection, if nothing
      completed it meanwhile, commits its effects and completes it, with no attempt lost. */
  lemma ReadyEventIsDetected(w: World, i: nat, worker: string, now: int, max: nat)
    requires Unique(w.rows) && i < |w.rows| && Ready(w.rows[i], now, max)
    requires ReadyRows(w.rows[..i], now, max) < 50
    ensures var claim := Claim(worker, w.rows[i].id, w.rows[i].attempts + 1, false);
            var claimed := Advance(w, Claims(worker, now), max);
            var after := Advance(claimed, Detects(claim), max);
      && claim in claimed.held && claimed.effects == w.effects
      && |after.rows| == |w.rows| && after.effects == w.effects + [w.rows[i].id]
      && after.rows[i] == Row(w.rows[i].id, Completed, w.rows[i].attempts + 1, None, None)
  {
    hide Ready, ReadyRows, ClaimRows;
    var c := ClaimRows(w.rows, worker, now, max, CLAIM_LIMIT);
    ClaimTreatsRows(w.rows, worker, now, max, CLAIM_LIMIT, i);
    ClaimRowsAre(w.rows, worker, now, max, CLAIM_LIMIT);
    var claim := Claim(worker, w.rows[i].id, w.rows[i].attempts + 1, false);
    assert claim in ClaimsOf(c.1, worker) by { assert c.0[i] in c.1; }
    forall k | 0 <= k < |w.rows| && c.0[k].id == claim.id ensures k == i {
      assert c.0[k].id == w.rows[k].id;
    }
    assert !IsCompleted(c.0, claim.id);
  }

  /** A manual retry makes a failed event ready at once with all its attempts, and touches no other. */
  lemma RetryMakesReady(w: World, id: string, i: nat, now: int, max: nat)
    requires i < |w.rows|
    ensures var after := Advance(w, Retry(id), max);
      && |after.rows| == |w.rows| && after.effects == w.effects && after.held == w.held
      && (if w.rows[i].id == id && w.rows[i].state == Failed
          then Ready(after.rows[i], now, max) && after.rows[i].attempts == 0 && after.rows[i].id == id
          else after.rows[i] == w.rows[i])
  {
  }

  /** A new event is ready as soon as it has arrived, at its place in the order of timestamps; the others keep
      theirs. */
  lemma ArrivalIsReady(w: World, id: string, position: nat, now: int, max: nat)
    requires !Present(w.rows, id)
    ensures var after := Advance(w, Arrives(id, position), max);
            var at := if position > |w.rows| then |w.rows| else position;
      && |after.rows| == |w.rows| + 1 && after.effects == w.effects && after.held == w.held
      && after.rows[..at] == w.rows[..at] && after.rows[at + 1..] == w.rows[at..]
      && after.rows[at].id == id && after.rows[at].attempts == 0 && Ready(after.rows[at], now, max)
  {
  }

  /** An event that comes with its offline evidence has its effects committed at once, and is never ready. */
  lemma ImportIsComplete(w: World, id: string, position: nat, max: nat)
    requires !Present(w.rows, id)
    ensures var after := Advance(w, Imports(id, position), max);
            var at := if position > |w.rows| then |w.rows| else position;
      && |after.rows| == |w.rows| + 1 && after.effects == w.effects + [id] && after.held == w.held
      && after.rows[..at] == w.rows[..at] && after.rows[at + 1..] == w.rows[at..]
      && after.rows[at].id == id && forall now: int :: !Ready(after.rows[at], now, max)
  {
  }

  /** A recorded failure ends the claim and leaves the event to be claimed again from its retry time on, if the claim
      was not the last that is allowed. */
  lemma FailureIsRetried(w: World, c: Claim, retryAt: int, i: nat, later: int, max: nat)
    requires c in w.held && i < |w.rows|
    ensures var after := Advance(w, Fails(c, retryAt), max);
      && |after.rows| == |w.rows| && after.effects == w.effects && after.held == w.held - {c}
      && after.rows[i].id == w.rows[i].id && after.rows[i].attempts == w.rows[i].attempts
      && (if w.rows[i].id == c.id
          then Ready(after.rows[i], later, max) <==> c.attempts < max && w.rows[i].attempts < max && later >= retryAt
          else after.rows[i] == w.rows[i])
  {
  }

  /** When a worker process dies and another starts, its claims are gone, and what it had in processing is ready again
      within the attempts it has left: at once, or at the retry time it had. */
  lemma AbandonedIsRetried(w: World, worker: string, i: nat, now: int, later: int, max: nat)
    requires i < |w.rows|
    ensures var after := Advance(Advance(w, Dies(worker), max), Starts(now), max);
      && |after.rows| == |w.rows| && after.effects == w.effects
      && (forall c :: c in after.held <==> c in w.held && c.worker != worker)
      && (w.rows[i].state != Processing ==> after.rows[i] == w.rows[i])
      && (w.rows[i].state == Processing ==>
            && after.rows[i].id == w.rows[i].id && after.rows[i].attempts == w.rows[i].attempts
            && (Ready(after.rows[i], later, max) <==>
                  w.rows[i].attempts < max
                  && later >= (if w.rows[i].nextAt.Some? then w.rows[i].nextAt.value else now)))
  {
  }

  /** The detection of a claim commits effects and completes the event if nothing completed it before, and in either
      case has run. */
  lemma DetectionRuns(w: World, c: Claim, max: nat)
    requires c in w.held
    ensures var after := Advance(w, Detects(c), max);
      && after.held == w.held - {c} + {c.(detected := true)}
      && (if exists i :: 0 <= i < |w.rows| && w.rows[i].id == c.id && w.rows[i].state == Completed
          then after.rows == w.rows && after.effects == w.effects
          else && |after.rows| == |w.rows| && after.effects == w.effects + [c.id]
               && forall i :: 0 <= i < |w.rows| ==>
                    after.rows[i] == (if w.rows[i].id == c.id then Row(c.id, Completed, w.rows[i].attempts, None, None)
                                      else w.rows[i]))
  {
  }

  /** A claim ends when its transaction has run, and not before. */
  lemma DetectedClaimEnds(w: World, c: Claim, max: nat)
    ensures Advance(w, Finishes(c), max).held == if c.detected then w.held - {c} else w.held
    ensures Advance(w, Finishes(c), max).rows == w.rows && Advance(w, Finishes(c), max).effects == w.effects
  {
  }
}
