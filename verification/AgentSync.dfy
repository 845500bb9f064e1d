/**
One synchronization cycle of the agent: claim a batch, set ineligible records aside, upload the rest, and
settle the batch by the reply, shrinking and growing the batch size.
*/
module AgentSync {
  import opened Options
  import opened Telemetry
  import opened AgentQueue

  /** `authorized` tells of offline evidence that it carries no configuration, or one issued to this agent
      under a genuine signature. */
  datatype Endpoint = Endpoint(agentId: string, authorized: Evidence -> bool)

  datatype Reply = Acknowledged(ids: seq<string>) | Malformed | Status(code: int) | NoReply

  /** `reported` are the commands executed offline whose evidence was acknowledged. */
  datatype Agent = Agent(rows: seq<Row>, adaptive: Option<int>, reported: set<string>)

  function Clamp(n: int, high: int): int { if n < 1 then 1 else if n > high then high else n }

  function OperationalMax(configured: int, limit: int): (max: int)
    ensures 1 <= max <= 50 && max <= Clamp(configured, 500)
  {
    if Clamp(configured, 500) < Clamp(limit, 50) then Clamp(configured, 500) else Clamp(limit, 50)
  }

  function BatchSize(max: int, adaptive: Option<int>): (size: nat)
    requires max >= 1
    ensures 1 <= size <= max
  {
    Clamp(if adaptive.Some? then adaptive.value else max, max)
  }

  function Half(n: nat): (h: nat)
    ensures 1 <= h && (n > 1 ==> h < n)
  {
    if n < 2 then 1 else n / 2
  }

  function ClassOf(code: int): ErrorClass {
    if code == 401 || code == 403 then Authentication
    else if code == 429 || code >= 500 then Transient
    else Validation
  }

  predicate Eligible(e: Endpoint, r: Record) {
    (r.agentId == "" || r.agentId == e.agentId) && (r.evidence.None? || e.authorized(r.evidence.value))
  }

  /** The records that are eligible, or those that are not, in their order. */
  function Sift(e: Endpoint, rs: seq<Record>, eligible: bool): (some: seq<Record>)
    ensures forall r :: r in some <==> r in rs && Eligible(e, r) == eligible
    ensures |some| <= |rs|
  {
    if rs == [] then []
    else (if Eligible(e, rs[0]) == eligible then [rs[0]] else []) + Sift(e, rs[1..], eligible)
  }

  function Known(batch: seq<Record>, ids: seq<string>, known: bool): seq<string> {
    if batch == [] then []
    else (if (batch[0].eventId in ids) == known then [batch[0].eventId] else []) + Known(batch[1..], ids, known)
  }

  /** The commands in the evidence of the records with these names. */
  function CommandsOf(batch: seq<Record>, ids: seq<string>): (commands: set<string>)
    ensures forall c :: c in commands <==>
              exists r :: r in batch && r.eventId in ids && r.evidence.Some? && c in r.evidence.value.commands
  {
    if batch == [] then {}
    else (if batch[0].eventId in ids && batch[0].evidence.Some?
          then set c | c in batch[0].evidence.value.commands else {})
         + CommandsOf(batch[1..], ids)
  }

  function Claimed(max: int, a: Agent, now: int): (seq<Row>, seq<Record>)
    requires max >= 1
  {
    Claim(a.rows, BatchSize(max, a.adaptive), now)
  }

  /** What a cycle uploads. */
  function Upload(e: Endpoint, max: int, a: Agent, now: int): seq<Record>
    requires max >= 1
  {
    Sift(e, Claimed(max, a, now).1, true)
  }

  /** The queue while the upload is under way: ineligible records are quarantined already. */
  function Uploading(e: Endpoint, max: int, a: Agent, now: int, later: int): seq<Row>
    requires max >= 1
  {
    Retry(Claimed(max, a, now).0, Ids(Sift(e, Claimed(max, a, now).1, false)), Security, None, later)
  }

  function Grown(max: int, adaptive: Option<int>): Option<int> {
    var size := if adaptive.Some? then adaptive.value else max;
    if size < max then Some(if size * 2 < max then size * 2 else max) else adaptive
  }

  function AfterReply(a: Agent, batch: seq<Record>, max: int, reply: Reply, later: int): Agent {
    match reply
    case Status(code) =>
      if ClassOf(code).Validation? && |batch| > 1 then
        a.(rows := Retry(a.rows, Ids(batch), Transient, Some(0), later), adaptive := Some(Half(|batch|)))
      else a.(rows := Retry(a.rows, Ids(batch), ClassOf(code), None, later))
    case Malformed => a.(rows := Retry(a.rows, Ids(batch), Validation, None, later))
    case Acknowledged(ids) =>
      Agent(Retry(Without(a.rows, Known(batch, ids, true)), Known(batch, ids, false), Transient, None, later),
            Grown(max, a.adaptive), a.reported + CommandsOf(batch, ids))
    case NoReply =>
      a.(rows := Retry(a.rows, Ids(batch), Transient, None, later),
         adaptive := if |batch| > 1 then Some(Half(|batch|)) else a.adaptive)
  }

  /** The agent after a cycle, whose upload, if there is one, gets this reply. */
  function AfterCycle(e: Endpoint, max: int, a: Agent, now: int, later: int, reply: Reply): Agent
    requires max >= 1
  {
    var uploading := a.(rows := Uploading(e, max, a, now, later));
    if Upload(e, max, a, now) == [] then uploading
    else AfterReply(uploading, Upload(e, max, a, now), max, reply, later)
  }

  class Daemon {
    const endpoint: Endpoint
    const max: int
    const queue: OfflineQueue
    var adaptive: Option<int>
    var reported: set<string>

    constructor (endpoint: Endpoint, configured: int, limit: int, queue: OfflineQueue, adaptive: Option<int>)
      ensures this.endpoint == endpoint && max == OperationalMax(configured, limit)
      ensures this.queue == queue && this.adaptive == adaptive && reported == {}
    {
      this.endpoint, max := endpoint, OperationalMax(configured, limit);
      this.queue, this.adaptive, reported := queue, adaptive, {};
    }

    function Value(): Agent
      reads this, queue
    {
      Agent(queue.rows, adaptive, reported)
    }

    method Quarantine(claimed: seq<Record>, later: int) returns (batch: seq<Record>)
      modifies queue
      ensures batch == Sift(endpoint, claimed, true)
      ensures queue.rows == Retry(old(queue.rows), Ids(Sift(endpoint, claimed, false)), Security, None, later)
    {
      var ineligible: seq<Record> := [];
      batch := [];
      assert claimed[0..] == claimed;
      for i := 0 to |claimed|
        invariant queue.rows == old(queue.rows)
        invariant batch + Sift(endpoint, claimed[i..], true) == Sift(endpoint, claimed, true)
        invariant ineligible + Sift(endpoint, claimed[i..], false) == Sift(endpoint, claimed, false)
      {
        hide Sift, Eligible;
        SiftUnrolls(endpoint, claimed, i, batch, ineligible);
        if Eligible(endpoint, claimed[i]) {
          batch := batch + [claimed[i]];
        } else {
          ineligible := ineligible + [claimed[i]];
        }
      }
      assert claimed[|claimed|..] == [];
      assert batch == Sift(endpoint, claimed, true) && ineligible == Sift(endpoint, claimed, false);
      queue.MarkRetry(Ids(ineligible), Security, None, later);
    }

    method Settle(batch: seq<Record>, reply: Reply, later: int)
      requires max >= 1
      modifies this, queue
      ensures Value() == AfterReply(old(Value()), batch, max, reply, later)
    {
      match reply {
        case Status(code) =>
          var error := ClassOf(code);
          if error.Validation? && |batch| > 1 {
            adaptive := Some(Half(|batch|));
            queue.MarkRetry(Ids(batch), Transient, Some(0), later);
          } else {
            queue.MarkRetry(Ids(batch), error, None, later);
          }
        case Malformed =>
          queue.MarkRetry(Ids(batch), Validation, None, later);
        case Acknowledged(ids) =>
          reported := reported + CommandsOf(batch, ids);
          queue.MarkSynced(Known(batch, ids, true));
          adaptive := Grown(max, adaptive);
          queue.MarkRetry(Known(batch, ids, false), Transient, None, later);
        case NoReply =>
          queue.MarkRetry(Ids(batch), Transient, None, later);
          if |batch| > 1 { adaptive := Some(Half(|batch|)); }
      }
    }

    /** `post` is the manager's reply to a batch. The result tells whether command reports are uploaded next. */
    method SyncOfflineQueue(post: seq<Record> -> Reply, now: int, later: int) returns (proceed: bool)
      requires max >= 1
      modifies this, queue
      ensures Value() == AfterCycle(endpoint, max, old(Value()), now, later,
                                    post(Upload(endpoint, max, old(Value()), now)))
      ensures proceed <==>
                var batch := Upload(endpoint, max, old(Value()), now); batch == [] || post(batch).Acknowledged?
    {
      var claimed := queue.ClaimBatch(BatchSize(max, adaptive), now);
      var batch := Quarantine(claimed, later);
      if batch == [] { return true; }
      var reply := post(batch);
      Settle(batch, reply, later);
      proceed := reply.Acknowledged?;
    }
  }

  lemma SiftUnrolls(e: Endpoint, rs: seq<Record>, at: nat, yes: seq<Record>, no: seq<Record>)
    requires at < |rs|
    ensures Eligible(e, rs[at]) ==>
              && yes + Sift(e, rs[at..], true) == (yes + [rs[at]]) + Sift(e, rs[at + 1..], true)
              && Sift(e, rs[at..], false) == Sift(e, rs[at + 1..], false)
    ensures !Eligible(e, rs[at]) ==>
              && no + Sift(e, rs[at..], false) == (no + [rs[at]]) + Sift(e, rs[at + 1..], false)
              && Sift(e, rs[at..], true) == Sift(e, rs[at + 1..], true)
  {
    assert rs[at..][1..] == rs[at + 1..];
    if Eligible(e, rs[at]) {
      assert Sift(e, rs[at..], false) == [] + Sift(e, rs[at + 1..], false);
    } else {
      assert Sift(e, rs[at..], true) == [] + Sift(e, rs[at + 1..], true);
    }
  }

  // ---------------------------------------------------------------- how a cycle treats each row

  lemma {:induction false} SiftedAreDistinct(e: Endpoint, rs: seq<Record>, eligible: bool)
    requires DistinctIds(rs)
    ensures DistinctIds(Sift(e, rs, eligible))
  {
    if rs != [] {
      SiftedAreDistinct(e, rs[1..], eligible);
      assert forall r :: r in rs[1..] ==> r.eventId != rs[0].eventId;
    }
  }

  lemma {:induction false} KnownAre(batch: seq<Record>, ids: seq<string>, known: bool)
    ensures forall id :: id in Known(batch, ids, known) <==>
              (id in ids) == known && exists r :: r in batch && r.eventId == id
  {
    if batch != [] {
      assert batch == [batch[0]] + batch[1..];
      KnownAre(batch[1..], ids, known);
    }
  }

  /** The uploaded records are due rows of the queue under distinct names, and no more than the batch size: of the
      claimed ones exactly those that name no other agent and carry no evidence but what was authorized. */
  lemma UploadIsFromTheQueue(e: Endpoint, max: int, a: Agent, now: int)
    requires max >= 1 && Unique(a.rows)
    ensures var batch := Upload(e, max, a, now);
      && DistinctIds(batch) && |batch| <= BatchSize(max, a.adaptive)
      && (forall r :: r in batch ==> Eligible(e, r) && Holds(a.rows, r))
      && forall r :: r in batch <==>
           && r in Claimed(max, a, now).1 && r.agentId in ["", e.agentId]
           && (r.evidence.Some? ==> e.authorized(r.evidence.value))
  {
    ClaimTakesDueRows(a.rows, BatchSize(max, a.adaptive), now);
    ClaimedAreDistinct(a.rows, BatchSize(max, a.adaptive), now);
    SiftedAreDistinct(e, Claimed(max, a, now).1, true);
  }

  /** A row during the upload. */
  ghost predicate During(e: Endpoint, batch: seq<Record>, claimed: seq<Record>, row: Row, after: Row,
                         now: int, later: int)
  {
    var start := Unstuck(row, now);
    && after.record == row.record && after.kind == row.kind && after.severity == row.severity
    && (row.record !in claimed ==> after == start)
    && (row.record in claimed ==> Due(start, now))
    && (row.record in batch ==> after == Taken(start, now))
    && (row.record in claimed && row.record !in batch ==> after == Retried(Taken(start, now), Security, None, later))
  }

  lemma RowsDuringUpload(e: Endpoint, max: int, a: Agent, now: int, later: int)
    requires max >= 1 && Unique(a.rows)
    ensures var after := Uploading(e, max, a, now, later);
      && |after| == |a.rows|
      && forall i :: 0 <= i < |a.rows| ==>
           During(e, Upload(e, max, a, now), Claimed(max, a, now).1, a.rows[i], after[i], now, later)
  {
    hide Claim;
    var size := BatchSize(max, a.adaptive);
    ClaimTakesDueRows(a.rows, size, now);
    var c := Claimed(max, a, now);
    var ineligible := Sift(e, c.1, false);
    forall i | 0 <= i < |a.rows|
      ensures During(e, Upload(e, max, a, now), c.1, a.rows[i], Uploading(e, max, a, now, later)[i], now, later)
    {
      RowIsClaimedIff(a.rows, size, now, i);
      NamedIff(a.rows, c.1, ineligible, i);
    }
  }

  lemma RowIsClaimedIff(rows: seq<Row>, size: nat, now: int, i: nat)
    requires Unique(rows) && i < |rows|
    ensures var c := Claim(rows, size, now);
      && |c.0| == |rows|
      && (rows[i].record in c.1 ==> Due(Unstuck(rows[i], now), now) && c.0[i] == Taken(Unstuck(rows[i], now), now))
      && (rows[i].record !in c.1 ==> c.0[i] == Unstuck(rows[i], now))
  {
    hide Claim;
    ClaimTakesDueRows(rows, size, now);
    var c := Claim(rows, size, now);
    if rows[i].record in c.1 {
      var k :| 0 <= k < |rows| && rows[k].record == rows[i].record
               && Due(Unstuck(rows[k], now), now) && c.0[k] == Taken(Unstuck(rows[k], now), now);
      assert k == i;
    }
  }

  /** Among records taken from the queue, a name stands for its record. */
  lemma NamedIff(rows: seq<Row>, claimed: seq<Record>, some: seq<Record>, i: nat)
    requires Unique(rows) && i < |rows|
    requires forall r :: r in some ==> r in claimed
    requires forall r :: r in claimed ==> Holds(rows, r)
    ensures rows[i].record.eventId in Ids(some) <==> rows[i].record in some
  {
    if rows[i].record.eventId in Ids(some) {
      var k :| 0 <= k < |some| && some[k].eventId == rows[i].record.eventId;
      assert some[k] in some && Holds(rows, some[k]);
      var n :| 0 <= n < |rows| && rows[n].record == some[k];
      assert n == i;
    }
    if rows[i].record in some {
      var k :| 0 <= k < |some| && some[k] == rows[i].record;
      assert Ids(some)[k] == rows[i].record.eventId;
    }
  }

  // ---------------------------------------------------------------- what becomes of the batch

  /** The operational maximum is the least of both settings and 50, or 1 where a setting is less. */
  lemma MaximumIsTheLeastSetting(configured: int, limit: int)
    ensures var max := OperationalMax(configured, limit);
      && max <= 50 && (max > 1 ==> max <= configured && max <= limit)
      && (configured >= 1 && limit >= 1 ==> max in [configured, limit, 50])
  {
  }

  /** A claim asks for the adaptive size, kept between 1 and the maximum, or for the maximum at first. */
  lemma SizeIsTheAdaptiveOne(max: int, adaptive: Option<int>)
    requires max >= 1
    ensures adaptive.None? ==> BatchSize(max, adaptive) == max
    ensures adaptive.Some? && 1 <= adaptive.value <= max ==> BatchSize(max, adaptive) == adaptive.value
    ensures adaptive.Some? && adaptive.value < 1 ==> BatchSize(max, adaptive) == 1
    ensures adaptive.Some? && adaptive.value > max ==> BatchSize(max, adaptive) == max
  {
  }

  /** The row is one of the uploaded batch. */
  ghost predicate Uploaded(batch: seq<Record>, row: Row) {
    exists r :: r in batch && r.eventId == row.record.eventId
  }

  /** Every row of the batch waits for its next attempt, the rest of the queue is untouched. */
  ghost predicate BatchWaits(rows: seq<Row>, batch: seq<Record>, after: seq<Row>) {
    && |after| == |rows|
    && forall i :: 0 <= i < |rows| ==>
         if Uploaded(batch, rows[i]) then Waits(rows[i], after[i]) else after[i] == rows[i]
  }

  ghost predicate Waits(row: Row, after: Row) {
    after.status.RetryPending? && after.nextAt.Some?
    && after == row.(status := after.status, nextAt := after.nextAt, error := Some(Transient))
  }

  /** Every row of the batch is set aside for good, the rest of the queue is untouched. */
  ghost predicate BatchSetAside(rows: seq<Row>, batch: seq<Record>, after: seq<Row>) {
    && |after| == |rows|
    && forall i :: 0 <= i < |rows| ==>
         if Uploaded(batch, rows[i])
         then after[i].status.PermanentError?
              && after[i] == rows[i].(status := PermanentError, nextAt := after[i].nextAt, error := Some(Validation))
         else after[i] == rows[i]
  }

  /** Half the batch, rounded down. */
  ghost predicate Halved(batch: seq<Record>, adaptive: Option<int>) {
    adaptive.Some? && (2 * adaptive.value == |batch| || 2 * adaptive.value + 1 == |batch|)
  }

  /** Nothing at the manager says that the batch is bad: it is overloaded or out of order, or did not answer. */
  ghost predicate Outage(reply: Reply) {
    reply.NoReply? || (reply.Status? && (reply.code == 429 || reply.code >= 500))
  }

  /** Then every row of the batch waits. A status leaves the batch size, a lost reply halves it. */
  lemma OutageKeepsTheBatch(a: Agent, batch: seq<Record>, max: int, reply: Reply, later: int)
    requires Outage(reply)
    ensures var after := AfterReply(a, batch, max, reply, later);
      && BatchWaits(a.rows, batch, after.rows) && after.reported == a.reported
      && (if reply.NoReply? && |batch| > 1 then Halved(batch, after.adaptive) else after.adaptive == a.adaptive)
  {
    NamesAreUploaded(a.rows, batch);
  }

  /** When the manager refuses the agent's identity, a row waits until its third attempt, and is then set aside. */
  lemma RefusedIdentityIsRetriedTwice(a: Agent, batch: seq<Record>, max: int, code: int, later: int)
    requires code == 401 || code == 403
    ensures var after := AfterReply(a, batch, max, Status(code), later);
      && |after.rows| == |a.rows| && after.adaptive == a.adaptive && after.reported == a.reported
      && forall i :: 0 <= i < |a.rows| ==>
           var row := after.rows[i];
           if Uploaded(batch, a.rows[i])
           then row == a.rows[i].(status := if a.rows[i].attempts < 3 then RetryPending else PermanentError,
                                  nextAt := row.nextAt, error := Some(Authentication)) && row.nextAt.Some?
           else row == a.rows[i]
  {
    NamesAreUploaded(a.rows, batch);
  }

  /** Any other refusal sets a single record aside; a larger batch may be sent again at once, by halves. */
  lemma RefusalIsolatesTheRecord(a: Agent, batch: seq<Record>, max: int, code: int, later: int)
    requires code < 500 && code !in [401, 403, 429]
    ensures var after := AfterReply(a, batch, max, Status(code), later);
      && after.reported == a.reported
      && (if |batch| > 1
          then && BatchWaits(a.rows, batch, after.rows) && Halved(batch, after.adaptive)
               && forall i :: 0 <= i < |a.rows| && Uploaded(batch, a.rows[i]) ==> after.rows[i].nextAt == Some(later)
          else BatchSetAside(a.rows, batch, after.rows) && after.adaptive == a.adaptive)
  {
    NamesAreUploaded(a.rows, batch);
  }

  /** A success without a readable acknowledgement sets the whole batch aside. */
  lemma MalformedReplySetsTheBatchAside(a: Agent, batch: seq<Record>, max: int, later: int)
    ensures var after := AfterReply(a, batch, max, Malformed, later);
      BatchSetAside(a.rows, batch, after.rows) && after.adaptive == a.adaptive && after.reported == a.reported
  {
    NamesAreUploaded(a.rows, batch);
  }

  /** An acknowledgement takes the acknowledged rows of the batch out of the queue; the others of the batch wait, and
      the rest is untouched. */
  lemma AcknowledgementSettlesTheBatch(a: Agent, batch: seq<Record>, max: int, ids: seq<string>, later: int)
    ensures var after := AfterReply(a, batch, max, Acknowledged(ids), later).rows;
      && (forall row :: row in a.rows && !Uploaded(batch, row) ==> row in after)
      && (forall row :: row in a.rows && Uploaded(batch, row) && row.record.eventId !in ids ==>
            exists x :: x in after && Waits(row, x))
      && (forall x :: x in after && !(x in a.rows && !Uploaded(batch, x)) ==>
            exists row :: row in a.rows && Uploaded(batch, row) && row.record.eventId !in ids && Waits(row, x))
  {
    hide Without, Known, Retried, Waits, Uploaded, Grown;
    var gone, left := Known(batch, ids, true), Known(batch, ids, false);
    KnownAreUploaded(a.rows, batch, ids);
    WithoutKeepsMembers(a.rows, gone);
    var kept := Without(a.rows, gone);
    var after := Retry(kept, left, Transient, None, later);
    forall i | 0 <= i < |kept|
      ensures if kept[i].record.eventId in left then Waits(kept[i], after[i]) else after[i] == kept[i]
    {
      LeftRowWaits(kept, left, later, i);
    }
    forall row | row in kept
      ensures if row.record.eventId in left then exists x :: x in after && Waits(row, x) else row in after
    {
      var i :| 0 <= i < |kept| && kept[i] == row;
      assert after[i] in after;
    }
    forall x | x in after && !(x in a.rows && !Uploaded(batch, x))
      ensures exists row :: row in a.rows && Uploaded(batch, row) && row.record.eventId !in ids && Waits(row, x)
    {
      var i :| 0 <= i < |kept| && after[i] == x;
      assert kept[i] in kept;
    }
  }

  lemma LeftRowWaits(rows: seq<Row>, left: seq<string>, later: int, i: nat)
    requires i < |rows|
    ensures var after := Retry(rows, left, Transient, None, later)[i];
      if rows[i].record.eventId in left then Waits(rows[i], after) else after == rows[i]
  {
    RetryTreatsRows(rows, left, Transient, None, later, i);
  }

  lemma KnownAreUploaded(rows: seq<Row>, batch: seq<Record>, ids: seq<string>)
    ensures forall row :: row in rows ==>
              var id := row.record.eventId;
              && (id in Known(batch, ids, true) <==> Uploaded(batch, row) && id in ids)
              && (id in Known(batch, ids, false) <==> Uploaded(batch, row) && id !in ids)
  {
    KnownAre(batch, ids, true);
    KnownAre(batch, ids, false);
  }

  /** After an acknowledgement the batch size doubles up to the maximum, and the commands in the acknowledged evidence
      count as reported. */
  lemma AcknowledgementGrowsTheBatch(a: Agent, batch: seq<Record>, max: int, ids: seq<string>, later: int)
    ensures var after := AfterReply(a, batch, max, Acknowledged(ids), later);
      && (a.adaptive.None? || a.adaptive.value >= max ==> after.adaptive == a.adaptive)
      && (a.adaptive.Some? && a.adaptive.value < max ==>
            && after.adaptive.Some? && after.adaptive.value <= max && after.adaptive.value <= 2 * a.adaptive.value
            && after.adaptive.value in [max, 2 * a.adaptive.value])
      && forall c :: c in after.reported <==>
           || c in a.reported
           || exists r :: r in batch && r.eventId in ids && r.evidence.Some? && c in r.evidence.value.commands
  {
  }

  lemma NamesAreUploaded(rows: seq<Row>, batch: seq<Record>)
    ensures forall i :: 0 <= i < |rows| ==> (rows[i].record.eventId in Ids(batch) <==> Uploaded(batch, rows[i]))
  {
    forall i | 0 <= i < |rows| && Uploaded(batch, rows[i]) ensures rows[i].record.eventId in Ids(batch) {
      var r :| r in batch && r.eventId == rows[i].record.eventId;
      var k :| 0 <= k < |batch| && batch[k] == r;
      assert Ids(batch)[k] == r.eventId;
    }
  }

  // ---------------------------------------------------------------- while the manager is out of order

  datatype Cycle = Cycle(now: int, later: int, reply: Reply)

  ghost function AfterCycles(e: Endpoint, max: int, a: Agent, cycles: seq<Cycle>): Agent
    requires max >= 1
  {
    if cycles == [] then a
    else
      var before, last := AfterCycles(e, max, a, cycles[..|cycles| - 1]), cycles[|cycles| - 1];
      AfterCycle(e, max, before, last.now, last.later, last.reply)
  }

  /** The same records in the same rows; only what is not the agent's to send may have been set aside since. */
  ghost predicate OutlivesOutage(e: Endpoint, rows: seq<Row>, after: seq<Row>) {
    && SameCargo(rows, after)
    && forall i :: 0 <= i < |rows| ==>
         && (rows[i].status.PermanentError? ==> after[i] == rows[i])
         && (after[i].status.PermanentError? ==>
               || rows[i].status.PermanentError?
               || rows[i].record.agentId !in ["", e.agentId]
               || (rows[i].record.evidence.Some? && !e.authorized(rows[i].record.evidence.value)))
  }

  lemma OutageCycleKeepsRows(e: Endpoint, max: int, a: Agent, c: Cycle)
    requires max >= 1 && Unique(a.rows) && Outage(c.reply)
    ensures var after := AfterCycle(e, max, a, c.now, c.later, c.reply);
      OutlivesOutage(e, a.rows, after.rows) && after.reported == a.reported
  {
    hide Claimed, Upload, Uploading, Retried, Due, Unstuck, Taken;
    var batch, claimed := Upload(e, max, a, c.now), Claimed(max, a, c.now).1;
    var uploading := a.(rows := Uploading(e, max, a, c.now, c.later));
    UploadIsFromTheQueue(e, max, a, c.now);
    RowsDuringUpload(e, max, a, c.now, c.later);
    if batch != [] { OutageKeepsTheBatch(uploading, batch, max, c.reply, c.later); }
    var after := AfterCycle(e, max, a, c.now, c.later, c.reply);
    forall i | 0 <= i < |a.rows|
      ensures OutlivesOutage(e, [a.rows[i]], [after.rows[i]])
    {
      DuringIsPatient(e, batch, claimed, a.rows[i], uploading.rows[i], c.now, c.later);
      if a.rows[i].record in batch { assert Uploaded(batch, uploading.rows[i]); }
    }
    assert forall i :: 0 <= i < |a.rows| ==> [a.rows[i]][0] == a.rows[i] && [after.rows[i]][0] == after.rows[i];
  }

  lemma DuringIsPatient(e: Endpoint, batch: seq<Record>, claimed: seq<Record>, row: Row, x: Row, now: int, later: int)
    requires During(e, batch, claimed, row, x, now, later)
    ensures row.status.PermanentError? ==> x == row && row.record !in claimed
    ensures x.status.PermanentError? && !row.status.PermanentError? ==> row.record in claimed && row.record !in batch
  {
  }

  /** However long an outage lasts, every record stays in the queue, and none that is the agent's own is set aside. */
  lemma {:induction false} NothingIsLostInAnOutage(e: Endpoint, max: int, a: Agent, cycles: seq<Cycle>)
    requires max >= 1 && Unique(a.rows) && forall i :: 0 <= i < |cycles| ==> Outage(cycles[i].reply)
    ensures var after := AfterCycles(e, max, a, cycles);
      Unique(after.rows) && OutlivesOutage(e, a.rows, after.rows) && after.reported == a.reported
  {
    hide AfterCycle;
    if cycles != [] {
      NothingIsLostInAnOutage(e, max, a, cycles[..|cycles| - 1]);
      OutageCycleKeepsRows(e, max, AfterCycles(e, max, a, cycles[..|cycles| - 1]), cycles[|cycles| - 1]);
    }
  }
}
