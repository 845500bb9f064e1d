/**
Repeated synchronization against a manager that is reachable: the batch size shrinks until every record
the manager refuses stands alone and is quarantined, while everything else is delivered.
*/
module BatchSplitting {
  import opened Options
  import opened Telemetry
  import opened AgentQueue
  import opened Ingestion
  import opened AgentSync

  /** Both sides' fixed settings. */
  datatype Setting = Setting(endpoint: Endpoint, max: nat, chunk: int, judge: Judge)

  datatype World = World(agent: Agent, store: Store)

  function Posted(st: Setting, batch: seq<Record>): Payload {
    Envelope(st.endpoint.agentId, Some(OfRecords(batch)), batch)
  }

  /** The manager as the agent sees it: a refusal is status 400, a broken request brings no reply. */
  function ReplyOf(a: Answer): Reply {
    match a
    case Accepted(ids) => Acknowledged(ids)
    case Rejected => Status(400)
    case Unanswered => NoReply
  }

  function Answered(st: Setting, s: Store, batch: seq<Record>): (Store, Answer) {
    Ingested(s, Posted(st, batch), true, st.chunk, Fine, st.judge)
  }

  function Turn(st: Setting, w: World, now: int, later: int): World
    requires st.max >= 1
  {
    var batch := Upload(st.endpoint, st.max, w.agent, now);
    var reply := ReplyOf(Answered(st, w.store, batch).1);
    World(AfterCycle(st.endpoint, st.max, w.agent, now, later, reply),
          if batch == [] then w.store else Answered(st, w.store, batch).0)
  }

  /** Turn `k` claims at `clock(2k)` and settles at `clock(2k + 1)`. */
  function Run(st: Setting, w: World, clock: nat -> int, k: nat, turns: nat): World
    requires st.max >= 1
    decreases turns
  {
    if turns == 0 then w else Run(st, Turn(st, w, clock(2 * k), clock(2 * k + 1)), clock, k + 1, turns - 1)
  }

  ghost predicate Monotone(clock: nat -> int) {
    forall i: nat, j: nat :: i <= j ==> clock(i) <= clock(j)
  }

  predicate Open(row: Row) { !row.status.PermanentError? }

  /** Nothing is left to deliver. */
  ghost predicate Quiet(w: World) {
    forall row :: row in w.agent.rows ==> !Open(row)
  }

  ghost predicate Sendable(st: Setting, s: Store, r: Record) {
    Eligible(st.endpoint, r) && Fault(s, r, st.endpoint.agentId, st.judge).Fine?
  }

  ghost predicate Breaking(st: Setting, s: Store, r: Record) {
    Eligible(st.endpoint, r) && Fault(s, r, st.endpoint.agentId, st.judge).Broken?
  }

  // ---------------------------------------------------------------- one turn, row by row

  /** What a turn makes of a row that stays in the queue. */
  ghost predicate Fated(claimed: seq<Record>, batch: seq<Record>, answer: Answer, row: Row, after: Row,
                        now: int, later: int)
  {
    && after.record == row.record
    && (row.record !in claimed ==> after == Unstuck(row, now))
    && (row.record in claimed ==> Due(Unstuck(row, now), now))
    && (row.record in claimed && row.record !in batch ==> after.status.PermanentError? && after.error == Some(Security))
    && (row.record in batch && answer.Rejected? && |batch| == 1 ==>
          after.status.PermanentError? && after.error == Some(Validation))
    && (row.record in batch && answer.Rejected? && |batch| != 1 ==>
          after.status.RetryPending? && after.nextAt == Some(later))
    && (row.record in batch && answer.Unanswered? ==> after.status.RetryPending?)
    && (row.record in batch ==> !answer.Accepted?)
  }

  /** Every row that is left was there before; a row is gone only by being acknowledged. */
  ghost predicate TurnsInto(rows: seq<Row>, claimed: seq<Record>, batch: seq<Record>, answer: Answer, after: seq<Row>,
                            now: int, later: int)
  {
    && Unique(after)
    && (forall x :: x in after ==> exists row :: row in rows && Fated(claimed, batch, answer, row, x, now, later))
    && (forall row :: row in rows ==>
          || (row.record in batch && answer.Accepted?)
          || exists x :: x in after && Fated(claimed, batch, answer, row, x, now, later))
  }

  lemma PointwiseTurn(rows: seq<Row>, claimed: seq<Record>, batch: seq<Record>, answer: Answer, after: seq<Row>,
                      now: int, later: int)
    requires Unique(rows) && |after| == |rows|
    requires forall i :: 0 <= i < |rows| ==> Fated(claimed, batch, answer, rows[i], after[i], now, later)
    ensures TurnsInto(rows, claimed, batch, answer, after, now, later)
  {
    hide Fated;
    forall i | 0 <= i < |rows| ensures after[i].record == rows[i].record {
      FatedKeepsRecord(claimed, batch, answer, rows[i], after[i], now, later);
    }
    forall x | x in after ensures exists row :: row in rows && Fated(claimed, batch, answer, row, x, now, later) {
      var i :| 0 <= i < |after| && after[i] == x;
      assert rows[i] in rows;
    }
    forall row | row in rows ensures exists x :: x in after && Fated(claimed, batch, answer, row, x, now, later) {
      var i :| 0 <= i < |rows| && rows[i] == row;
      assert after[i] in after;
    }
  }

  lemma FatedKeepsRecord(claimed: seq<Record>, batch: seq<Record>, answer: Answer, row: Row, x: Row,
                         now: int, later: int)
    requires Fated(claimed, batch, answer, row, x, now, later)
    ensures x.record == row.record
  {
  }

  lemma RefusedRowIsFated(e: Endpoint, claimed: seq<Record>, batch: seq<Record>, answer: Answer, row: Row,
                          uploading: Row, now: int, later: int)
    requires During(e, batch, claimed, row, uploading, now, later) && !answer.Accepted?
    requires row.record in batch ==> row.record in claimed
    ensures answer.Rejected? && |batch| != 1 ==>
              Fated(claimed, batch, answer, row,
                    if row.record in batch then Retried(uploading, Transient, Some(0), later) else uploading,
                    now, later)
    ensures answer.Rejected? && |batch| == 1 ==>
              Fated(claimed, batch, answer, row,
                    if row.record in batch then Retried(uploading, Validation, None, later) else uploading, now, later)
    ensures answer.Unanswered? ==>
              Fated(claimed, batch, answer, row,
                    if row.record in batch then Retried(uploading, Transient, None, later) else uploading, now, later)
  {
  }

  lemma TurnTreatsRows(st: Setting, w: World, now: int, later: int)
    requires st.max >= 1 && Unique(w.agent.rows) && Sound(w.store, st.judge)
    ensures var batch := Upload(st.endpoint, st.max, w.agent, now);
            var answer := if batch == [] then Accepted([]) else Answered(st, w.store, batch).1;
      && TurnsInto(w.agent.rows, Claimed(st.max, w.agent, now).1, batch, answer, Turn(st, w, now, later).agent.rows,
                   now, later)
      && (batch == [] ==> Turn(st, w, now, later).store == w.store)
  {
    hide Claimed, Upload, Uploading, Fated, Ingested, Retried, Unstuck, Due, TurnsInto;
    var rows, claimed := w.agent.rows, Claimed(st.max, w.agent, now).1;
    var batch := Upload(st.endpoint, st.max, w.agent, now);
    var uploading := Uploading(st.endpoint, st.max, w.agent, now, later);
    var answer := if batch == [] then Accepted([]) else Answered(st, w.store, batch).1;
    RowsDuringUpload(st.endpoint, st.max, w.agent, now, later);
    NamesInBatch(st, w, now);
    var after := Turn(st, w, now, later).agent.rows;
    if answer.Accepted? {
      AcceptedTurn(st, w, now, later);
    } else {
      forall i | 0 <= i < |rows| ensures Fated(claimed, batch, answer, rows[i], after[i], now, later) {
        RefusedRowIsFated(st.endpoint, claimed, batch, answer, rows[i], uploading[i], now, later);
        assert uploading[i].record == rows[i].record;
        assert rows[i].record in batch <==> uploading[i].record.eventId in Ids(batch);
      }
      PointwiseTurn(rows, claimed, batch, answer, after, now, later);
    }
  }

  /** An acknowledged batch leaves the queue, and nothing else does. */
  lemma AcceptedTurn(st: Setting, w: World, now: int, later: int)
    requires st.max >= 1 && Unique(w.agent.rows) && Sound(w.store, st.judge)
    requires var batch := Upload(st.endpoint, st.max, w.agent, now);
             batch == [] || Answered(st, w.store, batch).1.Accepted?
    ensures var batch := Upload(st.endpoint, st.max, w.agent, now);
            var answer := if batch == [] then Accepted([]) else Answered(st, w.store, batch).1;
      TurnsInto(w.agent.rows, Claimed(st.max, w.agent, now).1, batch, answer, Turn(st, w, now, later).agent.rows,
                now, later)
  {
    hide Claimed, Upload, Uploading, Ingested, Retried, Unstuck, Due, Sound;
    var rows, claimed := w.agent.rows, Claimed(st.max, w.agent, now).1;
    var batch := Upload(st.endpoint, st.max, w.agent, now);
    var uploading := Uploading(st.endpoint, st.max, w.agent, now, later);
    var answer := if batch == [] then Accepted([]) else Answered(st, w.store, batch).1;
    var after := Turn(st, w, now, later).agent.rows;
    RowsDuringUpload(st.endpoint, st.max, w.agent, now, later);
    NamesInBatch(st, w, now);
    RemainingRows(st, w, now, later);
    forall x | x in after ensures exists row :: row in rows && Fated(claimed, batch, answer, row, x, now, later) {
      var i :| 0 <= i < |uploading| && uploading[i] == x;
      assert rows[i] in rows && During(st.endpoint, batch, claimed, rows[i], uploading[i], now, later);
      QuarantineIsSecurity(st.endpoint, batch, claimed, answer, rows[i], x, now, later);
    }
    forall row | row in rows && row.record !in batch
      ensures exists x :: x in after && Fated(claimed, batch, answer, row, x, now, later)
    {
      var i :| 0 <= i < |rows| && rows[i] == row;
      assert During(st.endpoint, batch, claimed, rows[i], uploading[i], now, later);
      QuarantineIsSecurity(st.endpoint, batch, claimed, answer, row, uploading[i], now, later);
      assert uploading[i] in after;
    }
  }

  lemma QuarantineIsSecurity(e: Endpoint, batch: seq<Record>, claimed: seq<Record>, answer: Answer, row: Row, x: Row,
                             now: int, later: int)
    requires During(e, batch, claimed, row, x, now, later) && row.record !in batch
    ensures Fated(claimed, batch, answer, row, x, now, later)
  {
  }

  lemma RemainingRows(st: Setting, w: World, now: int, later: int)
    requires st.max >= 1 && Unique(w.agent.rows) && Sound(w.store, st.judge)
    requires var batch := Upload(st.endpoint, st.max, w.agent, now);
             batch == [] || Answered(st, w.store, batch).1.Accepted?
    ensures var after := Turn(st, w, now, later).agent.rows;
      && Unique(after)
      && forall x :: x in after <==> x in Uploading(st.endpoint, st.max, w.agent, now, later)
                                     && x.record !in Upload(st.endpoint, st.max, w.agent, now)
  {
    hide Claimed, Upload, Uploading, Ingested, Sound;
    var batch := Upload(st.endpoint, st.max, w.agent, now);
    var uploading := Uploading(st.endpoint, st.max, w.agent, now, later);
    RowsDuringUpload(st.endpoint, st.max, w.agent, now, later);
    NamesInBatch(st, w, now);
    assert forall i :: 0 <= i < |uploading| ==> uploading[i].record == w.agent.rows[i].record;
    if batch != [] {
      IngestKeeps(w.store, Posted(st, batch), true, st.chunk, Fine, st.judge);
      var ids := Ids(batch);
      KnownAre(batch, ids, true);
      KnownAre(batch, ids, false);
      WithoutIs(uploading, Known(batch, ids, true));
      var kept := Without(uploading, Known(batch, ids, true));
      assert Retry(kept, Known(batch, ids, false), Transient, None, later) == kept by {
        assert forall id :: id !in Known(batch, ids, false);
      }
    }
  }

  lemma NamesInBatch(st: Setting, w: World, now: int)
    requires st.max >= 1 && Unique(w.agent.rows)
    ensures var batch := Upload(st.endpoint, st.max, w.agent, now);
      && (forall r :: r in batch ==> r in Claimed(st.max, w.agent, now).1)
      && forall i :: 0 <= i < |w.agent.rows| ==>
           (w.agent.rows[i].record.eventId in Ids(batch) <==> w.agent.rows[i].record in batch)
  {
    var batch := Upload(st.endpoint, st.max, w.agent, now);
    UploadIsFromTheQueue(st.endpoint, st.max, w.agent, now);
    forall i | 0 <= i < |w.agent.rows|
      ensures w.agent.rows[i].record.eventId in Ids(batch) <==> w.agent.rows[i].record in batch
    {
      NamedIff(w.agent.rows, batch, batch, i);
    }
  }

  // ---------------------------------------------------------------- what every turn keeps

  /** A row still to be sent is due; a quarantined one could not have been delivered, and says why. */
  ghost predicate Placed(st: Setting, s0: Store, row: Row, now: int) {
    || Due(row, now)
    || (row.status.PermanentError? && !Sendable(st, s0, row.record)
        && row.error == Some(if Eligible(st.endpoint, row.record) then Validation else Security))
  }

  /** `rows0` and `s0` are the queue and the store at the start. */
  ghost predicate Tracks(st: Setting, s0: Store, rows0: seq<Row>, w: World, now: int) {
    && Unique(w.agent.rows) && Ready(st, w.store) && Extends(s0, w.store)
    && (forall row :: row in w.agent.rows ==>
          Holds(rows0, row.record) && SameFault(st, s0, w.store, row.record) && Placed(st, s0, row, now))
    && (forall i :: 0 <= i < |rows0| ==>
          Holds(w.agent.rows, rows0[i].record) || Delivered(st, s0, w.store, rows0[i].record))
  }

  ghost predicate Ready(st: Setting, s: Store) {
    Sound(s, st.judge) && OwnReceipts(s, st.endpoint.agentId)
  }

  ghost predicate SameFault(st: Setting, s: Store, t: Store, r: Record) {
    Fault(s, r, st.endpoint.agentId, st.judge) == Fault(t, r, st.endpoint.agentId, st.judge)
  }

  ghost predicate Delivered(st: Setting, s0: Store, s: Store, r: Record) {
    Sendable(st, s0, r) && Agrees(s, r)
  }

  ghost predicate NothingBreaks(st: Setting, s0: Store, rows0: seq<Row>) {
    forall i :: 0 <= i < |rows0| ==> !Breaking(st, s0, rows0[i].record)
  }

  /** What the manager's answer to an upload says about its records. */
  lemma AnswerTells(st: Setting, w: World, now: int)
    requires 1 <= st.max <= 50 && Unique(w.agent.rows) && Ready(st, w.store)
    ensures var batch := Upload(st.endpoint, st.max, w.agent, now);
            var after := Answered(st, w.store, batch);
      && Ready(st, after.0) && Extends(w.store, after.0)
      && (after.1.Accepted? <==> forall r :: r in batch ==> Fault(w.store, r, st.endpoint.agentId, st.judge).Fine?)
      && (after.1.Accepted? ==> forall r :: r in batch ==> Agrees(after.0, r))
      && (after.1.Unanswered? ==> exists r :: r in batch && Fault(w.store, r, st.endpoint.agentId, st.judge).Broken?)
      && (after.1.Rejected? ==> exists r :: r in batch && Fault(w.store, r, st.endpoint.agentId, st.judge).Refused?)
      && (forall r :: r in batch ==> Eligible(st.endpoint, r) && Holds(w.agent.rows, r))
      && |batch| <= BatchSize(st.max, w.agent.adaptive)
  {
    hide Ingested, Upload, Fault, Faultless, Breaks, Sound;
    var batch := Upload(st.endpoint, st.max, w.agent, now);
    var p := Posted(st, batch);
    FaultsAre(w.store, st.endpoint.agentId, st.judge);
    UploadIsFromTheQueue(st.endpoint, st.max, w.agent, now);
    IngestKeeps(w.store, p, true, st.chunk, Fine, st.judge);
    ReceiptsStayOwn(w.store, st.endpoint.agentId, batch, true, st.chunk, Fine, st.judge);
    AcceptsExactlyFaultlessBatches(w.store, p, true, st.chunk, Fine, st.judge);
  }

  lemma FaultsStay(st: Setting, w: World, now: int, row: Row)
    requires 1 <= st.max <= 50 && Unique(w.agent.rows) && Ready(st, w.store) && row in w.agent.rows
    ensures SameFault(st, w.store, Answered(st, w.store, Upload(st.endpoint, st.max, w.agent, now)).0, row.record)
  {
    hide Ingested, Upload, Fault, Sound;
    var batch := Upload(st.endpoint, st.max, w.agent, now);
    UploadIsFromTheQueue(st.endpoint, st.max, w.agent, now);
    forall other | other in batch && other.eventId == row.record.eventId ensures other == row.record {
      assert Holds(w.agent.rows, other);
      var i :| 0 <= i < |w.agent.rows| && w.agent.rows[i].record == other;
      var k :| 0 <= k < |w.agent.rows| && w.agent.rows[k] == row;
      assert i == k;
    }
    FaultIsStable(w.store, Posted(st, batch), row.record, st.endpoint.agentId, true, st.chunk, Fine, st.judge);
  }

  /** With nothing that breaks, the manager answers every turn. */
  lemma TurnIsAnswered(st: Setting, s0: Store, rows0: seq<Row>, w: World, now: int)
    requires 1 <= st.max <= 50 && Tracks(st, s0, rows0, w, now) && NothingBreaks(st, s0, rows0)
    ensures !Answered(st, w.store, Upload(st.endpoint, st.max, w.agent, now)).1.Unanswered?
  {
    hide Ingested, Upload, Fault, Ready, Placed;
    AnswerTells(st, w, now);
    var batch := Upload(st.endpoint, st.max, w.agent, now);
    forall r | r in batch ensures !Fault(w.store, r, st.endpoint.agentId, st.judge).Broken? {
      assert Holds(w.agent.rows, r);
      var i :| 0 <= i < |w.agent.rows| && w.agent.rows[i].record == r;
      assert w.agent.rows[i] in w.agent.rows;
      assert Holds(rows0, r) && SameFault(st, s0, w.store, r);
      var k :| 0 <= k < |rows0| && rows0[k].record == r;
      assert !Breaking(st, s0, rows0[k].record);
    }
  }

  lemma RowStaysPlaced(st: Setting, s0: Store, rows0: seq<Row>, w: World, row: Row, x: Row,
                       now: int, later: int, next: int)
    requires 1 <= st.max <= 50 && now <= later <= next && Tracks(st, s0, rows0, w, now) && row in w.agent.rows
    requires var batch := Upload(st.endpoint, st.max, w.agent, now);
             var answer := if batch == [] then Accepted([]) else Answered(st, w.store, batch).1;
             !answer.Unanswered? && Fated(Claimed(st.max, w.agent, now).1, batch, answer, row, x, now, later)
    ensures Placed(st, s0, x, next)
  {
    hide *;
    var claimed, batch := Claimed(st.max, w.agent, now).1, Upload(st.endpoint, st.max, w.agent, now);
    var answer := if batch == [] then Accepted([]) else Answered(st, w.store, batch).1;
    TrackedRow(st, s0, rows0, w, row, now);
    ClaimedIsUploadedIff(st, w, row.record, now);
    if answer.Rejected? && |batch| == 1 && row.record in batch { RefusedAlone(st, w, row.record, now); }
    FatedStaysPlaced(st, s0, w.store, claimed, batch, answer, row, x, now, later, next);
  }

  lemma TrackedRow(st: Setting, s0: Store, rows0: seq<Row>, w: World, row: Row, now: int)
    requires Tracks(st, s0, rows0, w, now) && row in w.agent.rows
    ensures SameFault(st, s0, w.store, row.record) && Placed(st, s0, row, now)
    ensures Unique(w.agent.rows) && Ready(st, w.store)
  {
  }

  lemma ClaimedIsUploadedIff(st: Setting, w: World, record: Record, now: int)
    requires st.max >= 1
    ensures record in Upload(st.endpoint, st.max, w.agent, now)
       <==> record in Claimed(st.max, w.agent, now).1 && Eligible(st.endpoint, record)
  {
    hide Claim, Eligible;
  }

  /** A batch of one that is refused consists of a record at fault. */
  lemma RefusedAlone(st: Setting, w: World, record: Record, now: int)
    requires 1 <= st.max <= 50 && Unique(w.agent.rows) && Ready(st, w.store)
    requires var batch := Upload(st.endpoint, st.max, w.agent, now);
             record in batch && |batch| == 1 && Answered(st, w.store, batch).1.Rejected?
    ensures !Fault(w.store, record, st.endpoint.agentId, st.judge).Fine?
  {
    hide *;
    AnswerTells(st, w, now);
    var batch := Upload(st.endpoint, st.max, w.agent, now);
    assert forall r :: r in batch ==> r == record;
  }

  lemma FatedStaysPlaced(st: Setting, s0: Store, s: Store, claimed: seq<Record>, batch: seq<Record>, answer: Answer,
                         row: Row, x: Row, now: int, later: int, next: int)
    requires now <= later <= next && !answer.Unanswered? && Fated(claimed, batch, answer, row, x, now, later)
    requires Placed(st, s0, row, now) && SameFault(st, s0, s, row.record)
    requires row.record in batch <==> row.record in claimed && Eligible(st.endpoint, row.record)
    requires answer.Rejected? && |batch| == 1 && row.record in batch ==>
               !Fault(s, row.record, st.endpoint.agentId, st.judge).Fine?
    ensures Placed(st, s0, x, next)
  {
    hide Fault, Eligible;
  }

  lemma RecordStaysAccounted(st: Setting, s0: Store, rows0: seq<Row>, w: World, record: Record, now: int, later: int)
    requires 1 <= st.max <= 50 && Tracks(st, s0, rows0, w, now)
    requires Holds(w.agent.rows, record) || Delivered(st, s0, w.store, record)
    ensures var after := Turn(st, w, now, later);
      Holds(after.agent.rows, record) || Delivered(st, s0, after.store, record)
  {
    hide *;
    var batch, after := Upload(st.endpoint, st.max, w.agent, now), Turn(st, w, now, later);
    if Holds(w.agent.rows, record) {
      var row := RowOf(w.agent.rows, record);
      TrackedRow(st, s0, rows0, w, row, now);
      if record in batch && Answered(st, w.store, batch).1.Accepted? {
        AcceptedIsDelivered(st, s0, w, record, now, later);
      } else {
        UnacknowledgedIsHeld(st, w, row, now, later);
      }
    } else {
      TrackedWorld(st, s0, rows0, w, now);
      DeliveredStays(st, s0, w, record, now, later);
    }
  }

  lemma RowOf(rows: seq<Row>, record: Record) returns (row: Row)
    requires Holds(rows, record)
    ensures row in rows && row.record == record
  {
    var i :| 0 <= i < |rows| && rows[i].record == record;
    row := rows[i];
  }

  lemma TrackedWorld(st: Setting, s0: Store, rows0: seq<Row>, w: World, now: int)
    requires Tracks(st, s0, rows0, w, now)
    ensures Unique(w.agent.rows) && Ready(st, w.store)
  {
  }

  lemma AcceptedIsDelivered(st: Setting, s0: Store, w: World, record: Record, now: int, later: int)
    requires 1 <= st.max <= 50 && Unique(w.agent.rows) && Ready(st, w.store) && SameFault(st, s0, w.store, record)
    requires var batch := Upload(st.endpoint, st.max, w.agent, now);
             record in batch && Answered(st, w.store, batch).1.Accepted?
    ensures Delivered(st, s0, Turn(st, w, now, later).store, record)
  {
    hide Fault, Ready, Upload, Agrees, Answered, AfterCycle;
    AnswerTells(st, w, now);
  }

  lemma UnacknowledgedIsHeld(st: Setting, w: World, row: Row, now: int, later: int)
    requires 1 <= st.max <= 50 && Unique(w.agent.rows) && Ready(st, w.store) && row in w.agent.rows
    requires var batch := Upload(st.endpoint, st.max, w.agent, now);
             !(row.record in batch && Answered(st, w.store, batch).1.Accepted?)
    ensures Holds(Turn(st, w, now, later).agent.rows, row.record)
  {
    hide *;
    var claimed, batch := Claimed(st.max, w.agent, now).1, Upload(st.endpoint, st.max, w.agent, now);
    var answer := if batch == [] then Accepted([]) else Answered(st, w.store, batch).1;
    ReadyIsSound(st, w.store);
    TurnTreatsRows(st, w, now, later);
    HeirIsHeld(w.agent.rows, claimed, batch, answer, Turn(st, w, now, later).agent.rows, row, now, later);
  }

  lemma ReadyIsSound(st: Setting, s: Store)
    requires Ready(st, s)
    ensures Sound(s, st.judge)
  {
  }

  lemma HeirIsHeld(rows: seq<Row>, claimed: seq<Record>, batch: seq<Record>, answer: Answer, after: seq<Row>, row: Row,
                   now: int, later: int)
    requires TurnsInto(rows, claimed, batch, answer, after, now, later) && row in rows
    requires !(row.record in batch && answer.Accepted?)
    ensures Holds(after, row.record)
  {
    hide Fated, Unique;
    var x :| x in after && Fated(claimed, batch, answer, row, x, now, later);
    FatedKeepsRecord(claimed, batch, answer, row, x, now, later);
    var k :| 0 <= k < |after| && after[k] == x;
  }

  lemma DeliveredStays(st: Setting, s0: Store, w: World, record: Record, now: int, later: int)
    requires 1 <= st.max <= 50 && Unique(w.agent.rows) && Ready(st, w.store)
    requires Delivered(st, s0, w.store, record)
    ensures Delivered(st, s0, Turn(st, w, now, later).store, record)
  {
    hide Sendable, Ready, Upload, Answered, AfterCycle, Carries;
    AnswerTells(st, w, now);
  }

  /** A turn keeps track of every record. */
  lemma TurnKeepsTrack(st: Setting, s0: Store, rows0: seq<Row>, w: World, now: int, later: int, next: int)
    requires 1 <= st.max <= 50 && now <= later <= next
    requires Tracks(st, s0, rows0, w, now) && NothingBreaks(st, s0, rows0)
    ensures Tracks(st, s0, rows0, Turn(st, w, now, later), next)
  {
    hide Ingested, Fault, Claimed, Upload, AfterCycle, Placed, Fated, Sound, OwnReceipts;
    TurnIsAnswered(st, s0, rows0, w, now);
    AnswerTells(st, w, now);
    TurnTreatsRows(st, w, now, later);
    var batch := Upload(st.endpoint, st.max, w.agent, now);
    var answer := if batch == [] then Accepted([]) else Answered(st, w.store, batch).1;
    var after := Turn(st, w, now, later);
    forall x | x in after.agent.rows
      ensures Holds(rows0, x.record) && SameFault(st, s0, after.store, x.record) && Placed(st, s0, x, next)
    {
      var row :| row in w.agent.rows && Fated(Claimed(st.max, w.agent, now).1, batch, answer, row, x, now, later);
      FatedKeepsRecord(Claimed(st.max, w.agent, now).1, batch, answer, row, x, now, later);
      FaultsStay(st, w, now, row);
      RowStaysPlaced(st, s0, rows0, w, row, x, now, later, next);
    }
    forall i | 0 <= i < |rows0|
      ensures Holds(after.agent.rows, rows0[i].record) || Delivered(st, s0, after.store, rows0[i].record)
    {
      RecordStaysAccounted(st, s0, rows0, w, rows0[i].record, now, later);
    }
  }

  // ---------------------------------------------------------------- every turn makes progress

  function OpenNames(rows: seq<Row>): set<string> {
    set row | row in rows && Open(row) :: row.record.eventId
  }

  lemma SmallerSet(a: set<string>, b: set<string>, name: string)
    requires a <= b && name in b && name !in a
    ensures |a| < |b|
  {
    var rest := b - {name};
    assert a <= rest;
    SubsetIsNoLarger(a, rest);
  }

  lemma {:induction false} SubsetIsNoLarger(a: set<string>, b: set<string>)
    requires a <= b
    ensures |a| <= |b|
  {
    assert b == a + (b - a);
  }

  lemma OpenRowsOnlyClose(st: Setting, s0: Store, rows0: seq<Row>, w: World, now: int, later: int)
    requires 1 <= st.max <= 50 && Tracks(st, s0, rows0, w, now)
    ensures OpenNames(Turn(st, w, now, later).agent.rows) <= OpenNames(w.agent.rows)
  {
    hide Ingested, Fault, Claimed, Upload, AfterCycle, Sound, OwnReceipts, Sendable;
    TurnTreatsRows(st, w, now, later);
    forall x | x in Turn(st, w, now, later).agent.rows && Open(x) ensures x.record.eventId in OpenNames(w.agent.rows) {
      var row :| row in w.agent.rows && row.record == x.record
                 && (Due(Unstuck(row, now), now) || x == Unstuck(row, now));
      assert Placed(st, s0, row, now);
      assert Open(row);
    }
  }

  /** A claimed record's row is closed by the turn, unless the whole batch was refused and split. */
  lemma ClaimedRowCloses(st: Setting, w: World, record: Record, now: int, later: int)
    requires 1 <= st.max <= 50 && Unique(w.agent.rows) && Sound(w.store, st.judge) && Holds(w.agent.rows, record)
    requires record in Claimed(st.max, w.agent, now).1
    requires var batch := Upload(st.endpoint, st.max, w.agent, now);
             var answer := if batch == [] then Accepted([]) else Answered(st, w.store, batch).1;
             record !in batch || answer.Accepted? || (answer.Rejected? && |batch| == 1)
    ensures record.eventId !in OpenNames(Turn(st, w, now, later).agent.rows)
  {
    hide *;
    var rows, claimed := w.agent.rows, Claimed(st.max, w.agent, now).1;
    var batch := Upload(st.endpoint, st.max, w.agent, now);
    var answer := if batch == [] then Accepted([]) else Answered(st, w.store, batch).1;
    var after := Turn(st, w, now, later).agent.rows;
    TurnTreatsRows(st, w, now, later);
    forall x | x in after ensures !(Open(x) && x.record.eventId == record.eventId) {
      var row := OriginOf(rows, claimed, batch, answer, after, x, now, later);
      if x.record.eventId == record.eventId {
        SameNameSameRecord(rows, row, record);
        FatedAndClaimedCloses(claimed, batch, answer, row, x, now, later);
      }
    }
    NameIsClosed(after, record.eventId);
  }

  lemma OriginOf(rows: seq<Row>, claimed: seq<Record>, batch: seq<Record>, answer: Answer, after: seq<Row>, x: Row,
                 now: int, later: int) returns (row: Row)
    requires TurnsInto(rows, claimed, batch, answer, after, now, later) && x in after
    ensures row in rows && Fated(claimed, batch, answer, row, x, now, later) && x.record == row.record
  {
    hide Fated, Unique;
    row :| row in rows && Fated(claimed, batch, answer, row, x, now, later);
    FatedKeepsRecord(claimed, batch, answer, row, x, now, later);
  }

  lemma SameNameSameRecord(rows: seq<Row>, row: Row, record: Record)
    requires Unique(rows) && row in rows && Holds(rows, record) && row.record.eventId == record.eventId
    ensures row.record == record
  {
    var i :| 0 <= i < |rows| && rows[i].record == record;
    var k :| 0 <= k < |rows| && rows[k] == row;
    assert i == k;
  }

  lemma FatedAndClaimedCloses(claimed: seq<Record>, batch: seq<Record>, answer: Answer, row: Row, x: Row,
                              now: int, later: int)
    requires Fated(claimed, batch, answer, row, x, now, later) && row.record in claimed
    requires row.record !in batch || answer.Accepted? || (answer.Rejected? && |batch| == 1)
    ensures !Open(x)
  {
  }

  lemma NameIsClosed(rows: seq<Row>, name: string)
    requires forall x :: x in rows ==> !(Open(x) && x.record.eventId == name)
    ensures name !in OpenNames(rows)
  {
  }

  /** While anything is open, a turn closes a row or shrinks the batch. */
  lemma TurnMakesProgress(st: Setting, s0: Store, rows0: seq<Row>, w: World, now: int, later: int)
    requires 1 <= st.max <= 50 && now <= later
    requires Tracks(st, s0, rows0, w, now) && NothingBreaks(st, s0, rows0) && !Quiet(w)
    ensures var after := Turn(st, w, now, later);
      || |OpenNames(after.agent.rows)| < |OpenNames(w.agent.rows)|
      || (|OpenNames(after.agent.rows)| <= |OpenNames(w.agent.rows)|
          && BatchSize(st.max, after.agent.adaptive) < BatchSize(st.max, w.agent.adaptive))
  {
    hide Ingested, Fault, OpenNames, Sound, OwnReceipts;
    var after := Turn(st, w, now, later);
    var claimed, batch := Claimed(st.max, w.agent, now).1, Upload(st.endpoint, st.max, w.agent, now);
    OpenRowsOnlyClose(st, s0, rows0, w, now, later);
    TurnIsAnswered(st, s0, rows0, w, now);
    AnswerTells(st, w, now);
    SomethingIsClaimed(st, s0, rows0, w, now);
    SubsetIsNoLarger(OpenNames(after.agent.rows), OpenNames(w.agent.rows));
    AllEligible(st.endpoint, claimed);
    if batch == claimed && Answered(st, w.store, batch).1.Rejected? && |batch| > 1 {
      BatchIsHalved(st, w, now, later);
    } else {
      var r := claimed[0];
      if other :| other in claimed && other !in batch { r := other; }
      ClaimedIsOpen(st, s0, rows0, w, r, now);
      ClaimedRowCloses(st, w, r, now, later);
      SmallerSet(OpenNames(after.agent.rows), OpenNames(w.agent.rows), r.eventId);
    }
  }

  lemma {:induction false} AllEligible(e: Endpoint, rs: seq<Record>)
    ensures (forall r :: r in rs ==> Eligible(e, r)) ==> Sift(e, rs, true) == rs
  {
    if rs != [] {
      assert rs == [rs[0]] + rs[1..];
      AllEligible(e, rs[1..]);
    }
  }

  lemma SomethingIsClaimed(st: Setting, s0: Store, rows0: seq<Row>, w: World, now: int)
    requires 1 <= st.max <= 50 && Tracks(st, s0, rows0, w, now) && !Quiet(w)
    ensures Claimed(st.max, w.agent, now).1 != []
  {
    hide Claim, Sendable, Ready;
    EmptyClaimMeansNothingIsDue(w.agent.rows, BatchSize(st.max, w.agent.adaptive), now);
    var row :| row in w.agent.rows && Open(row);
    assert Placed(st, s0, row, now);
    var i :| 0 <= i < |w.agent.rows| && w.agent.rows[i] == row;
    assert Due(Unstuck(w.agent.rows[i], now), now);
  }

  lemma ClaimedIsOpen(st: Setting, s0: Store, rows0: seq<Row>, w: World, r: Record, now: int)
    requires 1 <= st.max <= 50 && Tracks(st, s0, rows0, w, now) && r in Claimed(st.max, w.agent, now).1
    ensures Holds(w.agent.rows, r) && r.eventId in OpenNames(w.agent.rows)
  {
    hide Claim, Sendable, Ready, Tracks;
    ClaimTakesDueRows(w.agent.rows, BatchSize(st.max, w.agent.adaptive), now);
    var i :| 0 <= i < |w.agent.rows| && w.agent.rows[i].record == r && Due(Unstuck(w.agent.rows[i], now), now);
    assert w.agent.rows[i] in w.agent.rows && Open(w.agent.rows[i]);
  }

  lemma BatchIsHalved(st: Setting, w: World, now: int, later: int)
    requires 1 <= st.max
    requires var batch := Upload(st.endpoint, st.max, w.agent, now);
             |batch| > 1 && Answered(st, w.store, batch).1.Rejected? && |batch| <= BatchSize(st.max, w.agent.adaptive)
    ensures BatchSize(st.max, Turn(st, w, now, later).agent.adaptive) < BatchSize(st.max, w.agent.adaptive)
  {
    hide Ingested, Claim, Retry, Upload;
    assert ClassOf(400).Validation?;
  }

  // ---------------------------------------------------------------- the whole drain

  ghost predicate Starts(st: Setting, s0: Store, w: World) {
    && 1 <= st.max <= 50 && w.store == s0 && Ready(st, s0) && Unique(w.agent.rows)
    && forall i :: 0 <= i < |w.agent.rows| ==> w.agent.rows[i].status.Pending? && w.agent.rows[i].nextAt.None?
  }

  lemma StartTracks(st: Setting, s0: Store, w: World, now: int)
    requires Starts(st, s0, w)
    ensures Tracks(st, s0, w.agent.rows, w, now)
  {
  }

  lemma {:induction false} Drains(st: Setting, s0: Store, rows0: seq<Row>, w: World, clock: nat -> int, k: nat)
    returns (turns: nat)
    requires 1 <= st.max <= 50 && Monotone(clock)
    requires Tracks(st, s0, rows0, w, clock(2 * k)) && NothingBreaks(st, s0, rows0)
    ensures Quiet(Run(st, w, clock, k, turns))
    decreases |OpenNames(w.agent.rows)|, BatchSize(st.max, w.agent.adaptive)
  {
    hide Tracks, NothingBreaks, Turn, Quiet;
    if Quiet(w) {
      turns := 0;
    } else {
      assert clock(2 * k) <= clock(2 * k + 1) <= clock(2 * (k + 1));
      var after := Turn(st, w, clock(2 * k), clock(2 * k + 1));
      TurnMakesProgress(st, s0, rows0, w, clock(2 * k), clock(2 * k + 1));
      TurnKeepsTrack(st, s0, rows0, w, clock(2 * k), clock(2 * k + 1), clock(2 * (k + 1)));
      turns := Drains(st, s0, rows0, after, clock, k + 1);
      turns := turns + 1;
    }
  }

  lemma {:induction false} RunKeepsTrack(
      st: Setting, s0: Store, rows0: seq<Row>, w: World, clock: nat -> int, k: nat, turns: nat)
    requires 1 <= st.max <= 50 && Monotone(clock)
    requires Tracks(st, s0, rows0, w, clock(2 * k)) && NothingBreaks(st, s0, rows0)
    ensures Tracks(st, s0, rows0, Run(st, w, clock, k, turns), clock(2 * (k + turns)))
    decreases turns
  {
    hide Tracks, NothingBreaks, Turn;
    if turns > 0 {
      assert clock(2 * k) <= clock(2 * k + 1) <= clock(2 * (k + 1));
      TurnKeepsTrack(st, s0, rows0, w, clock(2 * k), clock(2 * k + 1), clock(2 * (k + 1)));
      RunKeepsTrack(st, s0, rows0, Turn(st, w, clock(2 * k), clock(2 * k + 1)), clock, k + 1, turns - 1);
    }
  }

  /** Once quiet, the queue holds exactly the records that could not be delivered, each quarantined with its
      reason; all others are stored as they were queued. */
  lemma QuietMeansSorted(st: Setting, s0: Store, w: World, clock: nat -> int, turns: nat)
    requires Starts(st, s0, w) && Monotone(clock) && NothingBreaks(st, s0, w.agent.rows)
    requires Quiet(Run(st, w, clock, 0, turns))
    ensures var after := Run(st, w, clock, 0, turns);
      && (forall row :: row in after.agent.rows ==>
            && Holds(w.agent.rows, row.record) && !Sendable(st, s0, row.record) && row.status.PermanentError?
            && row.error == Some(if Eligible(st.endpoint, row.record) then Validation else Security))
      && (forall i :: 0 <= i < |w.agent.rows| ==>
            if Sendable(st, s0, w.agent.rows[i].record)
            then Agrees(after.store, w.agent.rows[i].record) && !Holds(after.agent.rows, w.agent.rows[i].record)
            else Holds(after.agent.rows, w.agent.rows[i].record))
  {
    StartTracks(st, s0, w, clock(0));
    hide Sendable, Ready;
    RunKeepsTrack(st, s0, w.agent.rows, w, clock, 0, turns);
    var after := Run(st, w, clock, 0, turns);
    forall row | row in after.agent.rows
      ensures !Due(row, clock(2 * turns)) && Placed(st, s0, row, clock(2 * turns))
    {
      assert !Open(row);
    }
    forall i | 0 <= i < |w.agent.rows| && Holds(after.agent.rows, w.agent.rows[i].record)
      ensures !Sendable(st, s0, w.agent.rows[i].record)
    {
      var n :| 0 <= n < |after.agent.rows| && after.agent.rows[n].record == w.agent.rows[i].record;
      assert after.agent.rows[n] in after.agent.rows;
    }
  }

  // ---------------------------------------------------------------- a record that breaks the request

  /** The record is queued, open, and the manager never answers for it alone. */
  ghost predicate Stuck(st: Setting, w: World, record: Record) {
    && Unique(w.agent.rows) && Ready(st, w.store) && Breaking(st, w.store, record)
    && exists row :: row in w.agent.rows && row.record == record && Open(row)
  }

  /** A batch with a breaking record is not accepted; alone it is not refused either. */
  lemma BreakingIsNotAnswered(st: Setting, w: World, record: Record, now: int)
    requires 1 <= st.max <= 50 && Unique(w.agent.rows) && Ready(st, w.store) && Breaking(st, w.store, record)
    ensures var batch := Upload(st.endpoint, st.max, w.agent, now);
            var answer := Answered(st, w.store, batch).1;
      record in batch ==> !answer.Accepted? && !(answer.Rejected? && |batch| == 1)
  {
    hide Ingested, Fault, Ready, Upload;
    AnswerTells(st, w, now);
    var batch := Upload(st.endpoint, st.max, w.agent, now);
    assert |batch| == 1 && record in batch ==> forall r :: r in batch ==> r == record;
  }

  lemma StuckStaysStuck(st: Setting, w: World, record: Record, now: int, later: int)
    requires 1 <= st.max <= 50 && Stuck(st, w, record)
    ensures Stuck(st, Turn(st, w, now, later), record)
  {
    hide Ingested, Fault, AfterCycle, Sound, OwnReceipts, Claim;
    var claimed, batch := Claimed(st.max, w.agent, now).1, Upload(st.endpoint, st.max, w.agent, now);
    var answer := if batch == [] then Accepted([]) else Answered(st, w.store, batch).1;
    var row :| row in w.agent.rows && row.record == record && Open(row);
    BreakingIsNotAnswered(st, w, record, now);
    TurnTreatsRows(st, w, now, later);
    var x :| x in Turn(st, w, now, later).agent.rows && Fated(claimed, batch, answer, row, x, now, later);
    assert x.record == record && Open(x);
    StoreStaysReady(st, w, now, row);
  }

  lemma StoreStaysReady(st: Setting, w: World, now: int, row: Row)
    requires 1 <= st.max <= 50 && Unique(w.agent.rows) && Ready(st, w.store) && row in w.agent.rows
    ensures var s := Answered(st, w.store, Upload(st.endpoint, st.max, w.agent, now)).0;
      Ready(st, s) && SameFault(st, w.store, s, row.record)
  {
    hide Ready, Ingested, SameFault;
    AnswerTells(st, w, now);
    FaultsStay(st, w, now, row);
  }

  lemma {:induction false} StuckForever(st: Setting, w: World, record: Record, clock: nat -> int, k: nat, turns: nat)
    requires 1 <= st.max <= 50 && Stuck(st, w, record)
    ensures Stuck(st, Run(st, w, clock, k, turns), record) && !Quiet(Run(st, w, clock, k, turns))
    decreases turns
  {
    hide Turn, Breaking, Ready;
    if turns > 0 {
      StuckStaysStuck(st, w, record, clock(2 * k), clock(2 * k + 1));
      StuckForever(st, Turn(st, w, clock(2 * k), clock(2 * k + 1)), record, clock, k + 1, turns - 1);
    }
  }

  /** From a queue of pending rows, repeated cycles settle every row if and only if no eligible record makes
      the manager fail without an answer. */
  lemma DrainEndsExactly(st: Setting, s0: Store, w: World, clock: nat -> int)
    requires Starts(st, s0, w) && Monotone(clock)
    ensures (exists turns: nat :: Quiet(Run(st, w, clock, 0, turns))) <==> NothingBreaks(st, s0, w.agent.rows)
  {
    hide Run, Turn, Quiet, Breaking, Tracks;
    if NothingBreaks(st, s0, w.agent.rows) {
      StartTracks(st, s0, w, clock(0));
      var turns := Drains(st, s0, w.agent.rows, w, clock, 0);
    } else {
      var i :| 0 <= i < |w.agent.rows| && Breaking(st, s0, w.agent.rows[i].record);
      assert w.agent.rows[i] in w.agent.rows;
      forall turns: nat ensures !Quiet(Run(st, w, clock, 0, turns)) {
        StuckForever(st, w, w.agent.rows[i].record, clock, 0, turns);
      }
    }
  }
}
