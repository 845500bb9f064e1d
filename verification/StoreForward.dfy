/**
The agent's queue and the manager's store as one system: uploads that any number of manager threads store
chunk by chunk, replies that get lost, failures in the middle of a batch, and restarts of both sides.
*/
module StoreForward {
  import opened Options
  import opened Telemetry
  import opened AgentQueue
  import opened Ingestion
  import opened AgentSync

  datatype Site = Site(endpoint: Endpoint, judge: Judge)

  /** A manager thread between two chunks; `done` records are committed. */
  datatype Session = Session(thread: nat, payload: Payload, offline: bool, done: nat)

  /** `waiting` is the batch the agent has uploaded and has no reply to, `reported` the commands executed offline
      whose evidence it takes for delivered. `queued` and `said` are history:
      the records the queue took, and those it took or the manager was sent. */
  datatype World = World(
    rows: seq<Row>, waiting: Option<seq<Record>>, store: Store, sessions: set<Session>,
    replies: set<(Payload, seq<string>)>, reported: set<string>, queued: set<Record>, said: set<Record>)

  /** `Begin` is any request of any client. Any reply but an acknowledgement may reach the agent at any
      time; an acknowledgement only if the manager gave it. */
  datatype Step =
    | Enqueue(record: Record, kind: string, severity: string)
    | Send(max: int, adaptive: Option<int>, now: int, later: int)
    | Begin(thread: nat, payload: Payload, offline: bool)
    | Chunk(session: Session, size: nat)
    | Finish(session: Session)
    | Abort(session: Session)
    | Arrives(ids: seq<string>, later: int)
    | Fails(reply: Reply, later: int)
    | ManagerStarts
    | AgentStarts

  function Request(site: Site, batch: seq<Record>): Payload {
    Envelope(site.endpoint.agentId, Some(OfRecords(batch)), batch)
  }

  /** The first half of a synchronization cycle. */
  function Sent(site: Site, w: World, max: int, adaptive: Option<int>, now: int, later: int): World
    requires max >= 1
  {
    var agent := Agent(w.rows, adaptive, w.reported);
    var batch := Upload(site.endpoint, max, agent, now);
    w.(rows := Uploading(site.endpoint, max, agent, now, later), waiting := if batch == [] then None else Some(batch))
  }

  /** The second half; the batch size it leaves is of no concern here. */
  function Settled(w: World, batch: seq<Record>, reply: Reply, later: int): World {
    var after := AfterReply(Agent(w.rows, None, w.reported), batch, 1, reply, later);
    w.(rows := after.rows, reported := after.reported, waiting := None)
  }

  function Begun(site: Site, w: World, thread: nat, p: Payload, offline: bool): World {
    var heard := w.(said := w.said + (set r | r in p.records));
    if |p.records| > MAX_RECORDS then heard
    else if KeyOf(p) in w.store.receipts then
      if w.store.receipts[KeyOf(p)].payload != p then heard
      else heard.(replies := w.replies + {(p, w.store.receipts[KeyOf(p)].accepted)})
    else if ReadAll(p.records, Sender(p), site.judge).Fine? then
      heard.(sessions := w.sessions + {Session(thread, p, IsOffline(p, offline), 0)})
    else heard
  }

  function Chunked(site: Site, w: World, s: Session, size: nat): World {
    if s !in w.sessions || size == 0 || s.done >= |s.payload.records| then w
    else
      var next := if s.done + size < |s.payload.records| then s.done + size else |s.payload.records|;
      var c := Commit(w.store, s.payload.records[s.done..next], s.offline, site.judge);
      w.(store := c.0, sessions := w.sessions - {s} + (if c.1.Fine? then {s.(done := next)} else {}))
  }

  function Finished(w: World, s: Session): World {
    if s !in w.sessions || s.done != |s.payload.records| then w
    else
      w.(store := WithReceipt(w.store, s.payload), sessions := w.sessions - {s},
         replies := w.replies + {(s.payload, Ids(s.payload.records))})
  }

  function Advance(site: Site, w: World, s: Step): World {
    match s
    case Enqueue(record, kind, severity) =>
      if Conflicting(w.rows, record, kind, severity) then w
      else
        w.(rows := Enqueued(w.rows, record, kind, severity), queued := w.queued + {record},
           said := w.said + {record})
    case Send(max, adaptive, now, later) =>
      if w.waiting.Some? || max < 1 then w else Sent(site, w, max, adaptive, now, later)
    case Begin(thread, p, offline) => Begun(site, w, thread, p, offline)
    case Chunk(session, size) => Chunked(site, w, session, size)
    case Finish(session) => Finished(w, session)
    case Abort(session) => w.(sessions := w.sessions - {session})
    case Arrives(ids, later) =>
      if w.waiting.None? || (Request(site, w.waiting.value), ids) !in w.replies then w
      else Settled(w, w.waiting.value, Acknowledged(ids), later)
    case Fails(reply, later) =>
      if w.waiting.None? || reply.Acknowledged? then w
      else Settled(w, w.waiting.value, reply, later)
    case ManagerStarts => w.(sessions := {})
    case AgentStarts => w.(rows := Restarted(w.rows), waiting := None)
  }

  function Run(site: Site, w: World, steps: seq<Step>): World {
    if steps == [] then w else Advance(site, Run(site, w, steps[..|steps| - 1]), steps[|steps| - 1])
  }

  // ---------------------------------------------------------------- the invariant

  ghost predicate Stored(s: Store, rs: seq<Record>) {
    forall r :: r in rs ==> Agrees(s, r)
  }

  ghost predicate SessionHolds(site: Site, s: Store, session: Session) {
    && session.done <= |session.payload.records|
    && Stored(s, session.payload.records[..session.done])
    && forall r :: r in session.payload.records ==> Read(r, Sender(session.payload), site.judge).Fine?
  }

  ghost predicate ManagerHolds(site: Site, w: World) {
    && Sound(w.store, site.judge)
    && (forall s :: s in w.sessions ==> SessionHolds(site, w.store, s))
    && (forall reply :: reply in w.replies ==> reply.1 == Ids(reply.0.records) && Stored(w.store, reply.0.records))
  }

  ghost predicate Kept(w: World, r: Record) {
    Holds(w.rows, r) || Agrees(w.store, r)
  }

  ghost predicate AgentHolds(w: World) {
    && Unique(w.rows)
    && (w.waiting.Some? ==> forall r :: r in w.waiting.value ==> Holds(w.rows, r))
    && (forall r :: r in w.queued ==> Kept(w, r))
    && (forall row :: row in w.rows ==> row.record in w.queued)
    && (forall c :: c in w.reported ==> Arrived(w, c))
  }

  /** The command is in the evidence of a record that was queued and is stored. */
  ghost predicate Arrived(w: World, command: string) {
    exists r :: r in w.queued && Executed(r, command) && Agrees(w.store, r)
  }

  predicate Executed(r: Record, command: string) {
    r.evidence.Some? && command in r.evidence.value.commands
  }

  /** Nothing stored changes and no acknowledgement is taken back. */
  ghost predicate Grows(before: World, after: World) {
    && Extends(before.store, after.store) && before.replies <= after.replies && before.queued <= after.queued
    && before.reported <= after.reported
  }

  lemma StoredStays(before: Store, after: Store, rs: seq<Record>)
    requires Extends(before, after) && Stored(before, rs)
    ensures Stored(after, rs)
  {
  }

  // ---------------------------------------------------------------- the manager's steps

  lemma BeginKeeps(site: Site, w: World, thread: nat, p: Payload, offline: bool)
    requires ManagerHolds(site, w)
    ensures ManagerHolds(site, Begun(site, w, thread, p, offline))
  {
    if KeyOf(p) in w.store.receipts {
      assert Vouches(w.store, KeyOf(p), site.judge);
    } else {
      ReadAllIs(p.records, Sender(p), site.judge);
    }
  }

  lemma StoreGrows(site: Site, w: World, after: Store)
    requires ManagerHolds(site, w) && Extends(w.store, after) && Sound(after, site.judge)
    ensures ManagerHolds(site, w.(store := after))
  {
    hide Sound, Agrees, Extends, Read;
    forall s | s in w.sessions ensures SessionHolds(site, after, s) {
      StoredStays(w.store, after, s.payload.records[..s.done]);
    }
    forall reply | reply in w.replies ensures Stored(after, reply.0.records) {
      StoredStays(w.store, after, reply.0.records);
    }
  }

  lemma ChunkKeeps(site: Site, w: World, s: Session, size: nat)
    requires ManagerHolds(site, w)
    ensures ManagerHolds(site, Chunked(site, w, s, size)) && Extends(w.store, Chunked(site, w, s, size).store)
  {
    hide Sound, Agrees, Commit, Read;
    if s in w.sessions && size > 0 && s.done < |s.payload.records| {
      var next := if s.done + size < |s.payload.records| then s.done + size else |s.payload.records|;
      var chunk := s.payload.records[s.done..next];
      var c := Commit(w.store, chunk, s.offline, site.judge);
      ChunkIsSound(w.store, chunk, s.offline, site.judge);
      StoreGrows(site, w, c.0);
      if c.1.Fine? {
        assert s.payload.records[..next] == s.payload.records[..s.done] + chunk;
        assert SessionHolds(site, c.0, s);
        assert SessionHolds(site, c.0, s.(done := next));
      }
    }
  }

  lemma ChunkIsSound(s: Store, rs: seq<Record>, offline: bool, j: Judge)
    requires Sound(s, j)
    ensures var c := Commit(s, rs, offline, j);
      Sound(c.0, j) && Extends(s, c.0) && (c.1.Fine? ==> Stored(c.0, rs))
  {
    CommitIsAtomic(s, rs, offline, j);
    ExtendedVouches(s, Commit(s, rs, offline, j).0, j);
  }

  lemma FinishKeeps(site: Site, w: World, s: Session)
    requires ManagerHolds(site, w)
    ensures ManagerHolds(site, Finished(w, s)) && Extends(w.store, Finished(w, s).store)
  {
    if s in w.sessions && s.done == |s.payload.records| {
      assert SessionHolds(site, w.store, s);
      assert s.payload.records[..s.done] == s.payload.records;
      ReceiptKeeps(w.store, s.payload, site.judge);
      hide Sound, Agrees, Extends, WithReceipt, Read;
      StoreGrows(site, w, WithReceipt(w.store, s.payload));
      StoredStays(w.store, WithReceipt(w.store, s.payload), s.payload.records);
    }
  }

  // ---------------------------------------------------------------- the agent's steps

  lemma CargoStays(before: seq<Row>, after: seq<Row>)
    requires SameCargo(before, after) && Unique(before)
    ensures Unique(after) && forall r :: Holds(before, r) <==> Holds(after, r)
    ensures forall row :: row in after ==> exists other :: other in before && other.record == row.record
  {
    forall row | row in after ensures exists other :: other in before && other.record == row.record {
      var i :| 0 <= i < |after| && after[i] == row;
      assert before[i] in before;
    }
    forall r | Holds(before, r) ensures Holds(after, r) {
      var i :| 0 <= i < |before| && before[i].record == r;
      assert after[i].record == r;
    }
    forall r | Holds(after, r) ensures Holds(before, r) {
      var i :| 0 <= i < |after| && after[i].record == r;
      assert before[i].record == r;
    }
  }

  lemma SendKeeps(site: Site, w: World, max: int, adaptive: Option<int>, now: int, later: int)
    requires AgentHolds(w) && max >= 1
    ensures AgentHolds(Sent(site, w, max, adaptive, now, later))
  {
    hide Claim, Agrees;
    var size := BatchSize(max, adaptive);
    var claim := Claim(w.rows, size, now);
    var after := Sent(site, w, max, adaptive, now, later);
    ClaimTakesDueRows(w.rows, size, now);
    CargoStays(w.rows, claim.0);
    CargoStays(claim.0, after.rows);
    if after.waiting.Some? {
      forall r | r in after.waiting.value ensures Holds(after.rows, r) {
        assert r in claim.1;
        assert Holds(w.rows, r);
      }
    }
    RowsMoved(w, after);
  }

  lemma EnqueueKeeps(w: World, record: Record, kind: string, severity: string)
    requires AgentHolds(w) && !Conflicting(w.rows, record, kind, severity)
    ensures var after := Enqueued(w.rows, record, kind, severity);
      && Unique(after) && Holds(after, record) && (forall r :: Holds(w.rows, r) ==> Holds(after, r))
      && (forall row :: row in after ==> row.record == record || row.record in w.queued)
  {
    EnqueueIsIdempotent(w.rows, record, kind, severity, record, kind, severity);
    var after := Enqueued(w.rows, record, kind, severity);
    forall r | Holds(w.rows, r) ensures Holds(after, r) {
      var i :| 0 <= i < |w.rows| && w.rows[i].record == r;
      assert after[i].record == r;
    }
  }

  /** An acknowledgement takes away only rows whose records are stored, and reports only commands of such. */
  lemma AcknowledgedRowsAreStored(w: World, batch: seq<Record>, ids: seq<string>, later: int)
    requires Unique(w.rows) && Stored(w.store, batch) && forall r :: r in batch ==> Holds(w.rows, r)
    ensures var after := Settled(w, batch, Acknowledged(ids), later);
      && Unique(after.rows)
      && (forall r :: Holds(w.rows, r) ==> Holds(after.rows, r) || Agrees(w.store, r))
      && (forall row :: row in after.rows ==> Holds(w.rows, row.record))
      && (forall c :: c in after.reported && c !in w.reported ==> exists r :: r in batch && Executed(r, c))
  {
    hide Agrees, Without, Known;
    var gone := Known(batch, ids, true);
    KnownAre(batch, ids, true);
    WithoutIs(w.rows, gone);
    var kept := Without(w.rows, gone);
    var after := Settled(w, batch, Acknowledged(ids), later);
    CargoStays(kept, after.rows);
    forall row | row in after.rows ensures Holds(w.rows, row.record) {
      var other :| other in kept && other.record == row.record;
      assert other in w.rows;
      var i :| 0 <= i < |w.rows| && w.rows[i] == other;
    }
    forall r | Holds(w.rows, r) ensures Holds(after.rows, r) || Agrees(w.store, r) {
      var i :| 0 <= i < |w.rows| && w.rows[i].record == r;
      if r.eventId in gone {
        var b :| b in batch && b.eventId == r.eventId;
        var k :| 0 <= k < |w.rows| && w.rows[k].record == b;
        assert i == k;
      } else {
        assert w.rows[i] in kept;
        var k :| 0 <= k < |kept| && kept[k] == w.rows[i];
        assert Holds(kept, r);
      }
    }
  }

  lemma HeldIsQueued(w: World, r: Record)
    requires AgentHolds(w) && Holds(w.rows, r)
    ensures r in w.queued
  {
    var i :| 0 <= i < |w.rows| && w.rows[i].record == r;
    assert w.rows[i] in w.rows;
  }

  lemma ArrivalKeeps(site: Site, w: World, ids: seq<string>, later: int)
    requires ManagerHolds(site, w) && AgentHolds(w)
    ensures AgentHolds(Advance(site, w, Arrives(ids, later)))
  {
    if w.waiting.Some? && (Request(site, w.waiting.value), ids) in w.replies {
      var batch := w.waiting.value;
      var after := Settled(w, batch, Acknowledged(ids), later);
      AcknowledgedRowsAreStored(w, batch, ids, later);
      hide Agrees, Settled;
      SettlingKeepsTheRest(w, batch, Acknowledged(ids), later);
      forall row | row in after.rows ensures row.record in w.queued { HeldIsQueued(w, row.record); }
      forall r | r in w.queued ensures Kept(after, r) { assert Kept(w, r); }
      forall c | c in after.reported ensures Arrived(after, c) {
        if c in w.reported {
          assert Arrived(w, c);
        } else {
          var r :| r in batch && Executed(r, c);
          HeldIsQueued(w, r);
        }
      }
    }
  }

  lemma SettlingKeepsTheRest(w: World, batch: seq<Record>, reply: Reply, later: int)
    ensures var after := Settled(w, batch, reply, later);
      && after.store == w.store && after.queued == w.queued && after.said == w.said && after.waiting == None
      && after.sessions == w.sessions && after.replies == w.replies && w.reported <= after.reported
      && (!reply.Acknowledged? ==> after.reported == w.reported)
  {
  }

  lemma FailureKeeps(site: Site, w: World, reply: Reply, later: int)
    requires AgentHolds(w) && w.waiting.Some? && !reply.Acknowledged?
    ensures AgentHolds(Settled(w, w.waiting.value, reply, later))
  {
    var after := Settled(w, w.waiting.value, reply, later);
    CargoStays(w.rows, after.rows);
    RowsMoved(w, after);
  }

  /** Only delivery bookkeeping differs. */
  lemma RowsMoved(w: World, after: World)
    requires AgentHolds(w) && SameCargo(w.rows, after.rows) && after.store == w.store && after.queued == w.queued
    requires after.reported == w.reported
    requires after.waiting.Some? ==> forall r :: r in after.waiting.value ==> Holds(after.rows, r)
    ensures AgentHolds(after)
  {
    hide Agrees, SameCargo, Unique;
    CargoStays(w.rows, after.rows);
    forall r | r in w.queued ensures Kept(after, r) { assert Kept(w, r); }
    forall c | c in after.reported ensures Arrived(after, c) { assert Arrived(w, c); }
  }

  lemma StoreGrowthKeepsAgent(w: World, after: World)
    requires AgentHolds(w) && after.rows == w.rows && after.queued == w.queued && after.waiting == w.waiting
    requires Extends(w.store, after.store) && after.reported == w.reported
    ensures AgentHolds(after)
  {
    forall r | r in after.queued ensures Kept(after, r) {
      assert Kept(w, r);
    }
    forall c | c in after.reported ensures Arrived(after, c) {
      assert Arrived(w, c);
      var r :| r in w.queued && Executed(r, c) && Agrees(w.store, r);
      assert Agrees(after.store, r);
    }
  }

  // ---------------------------------------------------------------- every run

  lemma StepKeeps(site: Site, w: World, s: Step)
    requires ManagerHolds(site, w) && AgentHolds(w)
    ensures var after := Advance(site, w, s);
      ManagerHolds(site, after) && AgentHolds(after) && Grows(w, after)
  {
    hide Sound, SessionHolds, Stored, Agrees, Begun, Chunked, Finished, Settled, Restarted, Enqueued, Unique, Holds;
    match s
    case Enqueue(record, kind, severity) =>
      if !Conflicting(w.rows, record, kind, severity) { EnqueueKeeps(w, record, kind, severity); }
    case Send(max, adaptive, now, later) => if max >= 1 { SendKeeps(site, w, max, adaptive, now, later); }
    case Begin(thread, p, offline) =>
      BeginKeeps(site, w, thread, p, offline); BeginTouchesNothing(site, w, thread, p, offline);
    case Chunk(session, size) =>
      ChunkKeeps(site, w, session, size); ChunkTouchesNothing(site, w, session, size);
      StoreGrowthKeepsAgent(w, Chunked(site, w, session, size));
    case Finish(session) =>
      FinishKeeps(site, w, session); FinishTouchesNothing(w, session);
      StoreGrowthKeepsAgent(w, Finished(w, session));
    case Arrives(ids, later) =>
      ArrivalKeeps(site, w, ids, later);
      if w.waiting.Some? { SettlingKeepsTheRest(w, w.waiting.value, Acknowledged(ids), later); }
    case Fails(reply, later) =>
      if w.waiting.Some? && !reply.Acknowledged? {
        FailureKeeps(site, w, reply, later);
        SettlingKeepsTheRest(w, w.waiting.value, reply, later);
      }
    case Abort(session) =>
    case ManagerStarts =>
    case AgentStarts => RestartKeeps(w);
  }

  lemma BeginTouchesNothing(site: Site, w: World, thread: nat, p: Payload, offline: bool)
    requires AgentHolds(w)
    ensures var after := Begun(site, w, thread, p, offline);
      && AgentHolds(after) && after.store == w.store && w.replies <= after.replies && w.queued == after.queued
      && after.reported == w.reported
  {
    StoreGrowthKeepsAgent(w, Begun(site, w, thread, p, offline));
  }

  lemma ChunkTouchesNothing(site: Site, w: World, s: Session, size: nat)
    ensures var after := Chunked(site, w, s, size);
      && after.rows == w.rows && after.waiting == w.waiting && after.queued == w.queued
      && after.replies == w.replies && after.reported == w.reported
      && after.said == w.said
  {
  }

  lemma FinishTouchesNothing(w: World, s: Session)
    ensures var after := Finished(w, s);
      && after.rows == w.rows && after.waiting == w.waiting && after.queued == w.queued
      && w.replies <= after.replies && after.reported == w.reported
      && after.said == w.said && after.store.events == w.store.events
  {
  }

  lemma RestartKeeps(w: World)
    requires AgentHolds(w)
    ensures AgentHolds(w.(rows := Restarted(w.rows), waiting := None))
  {
    RowsMoved(w, w.(rows := Restarted(w.rows), waiting := None));
  }

  function Start(s: Store): World { World([], None, s, {}, {}, {}, {}, {}) }

  lemma {:induction false} RunKeeps(site: Site, s0: Store, steps: seq<Step>)
    requires Sound(s0, site.judge)
    ensures var w := Run(site, Start(s0), steps);
      && ManagerHolds(site, w) && AgentHolds(w) && Extends(s0, w.store) && ImportedOnce(w.store)
  {
    hide Advance, Agrees;
    if steps != [] {
      RunKeeps(site, s0, steps[..|steps| - 1]);
      StepKeeps(site, Run(site, Start(s0), steps[..|steps| - 1]), steps[|steps| - 1]);
    }
  }

  /** Over any run, against a manager that may already hold other telemetry: whatever was queued is still queued as it
      was, or is stored under its name with its own agent and raw form, and with its own normalized form if it has no
      raw one. What is stored stays, and evidence was imported once. */
  lemma NothingIsLost(site: Site, s0: Store, steps: seq<Step>, r: Record)
    requires Sound(s0, site.judge) && r in Run(site, Start(s0), steps).queued
    ensures var w := Run(site, Start(s0), steps);
      || (exists i :: 0 <= i < |w.rows| && w.rows[i].record == r)
      || (r.eventId in w.store.events
          && var e := w.store.events[r.eventId];
             e.agentId == r.agentId && e.raw == r.raw && (r.raw == None ==> e.normalized == r.normalized))
    ensures var w := Run(site, Start(s0), steps);
      && (forall id :: id in s0.events ==> id in w.store.events && w.store.events[id] == s0.events[id])
      && forall id :: multiset(w.store.imports)[id]
                      == (if id in w.store.events && w.store.events[id].evidence.Some? then 1 else 0)
  {
    hide Run;
    RunKeeps(site, s0, steps);
    var w := Run(site, Start(s0), steps);
    assert Kept(w, r);
  }

  /** A later world has everything stored that an earlier one had, unchanged. */
  lemma {:induction false} StoredForGood(site: Site, w: World, steps: seq<Step>)
    requires ManagerHolds(site, w) && AgentHolds(w)
    ensures var after := Run(site, w, steps);
      ManagerHolds(site, after) && AgentHolds(after) && Grows(w, after)
  {
    hide Advance, ManagerHolds, AgentHolds;
    if steps != [] {
      StoredForGood(site, w, steps[..|steps| - 1]);
      StepKeeps(site, Run(site, w, steps[..|steps| - 1]), steps[|steps| - 1]);
    }
  }

  // ---------------------------------------------------------------- ingestion is one of the runs

  lemma {:induction false} RunsJoin(site: Site, w: World, first: seq<Step>, more: seq<Step>)
    ensures Run(site, w, first + more) == Run(site, Run(site, w, first), more)
  {
    hide Advance;
    if more == [] {
      assert first + more == first;
    } else {
      var all := first + more;
      assert all[..|all| - 1] == first + more[..|more| - 1];
      RunsJoin(site, w, first, more[..|more| - 1]);
    }
  }

  lemma OneStep(site: Site, w: World, s: Step)
    ensures Run(site, w, [s]) == Advance(site, w, s)
  {
    assert [s][..0] == [];
  }

  /** A thread left alone stores the rest of its batch as one call of `ingest` would. */
  lemma {:induction false} SessionStoresTheRest(site: Site, w: World, s: Session, size: nat) returns (steps: seq<Step>)
    requires s in w.sessions && size > 0 && s.done < |s.payload.records|
    ensures var after := Run(site, w, steps);
            var stored := CommitAll(w.store, s.payload.records[s.done..], size, s.offline, site.judge);
      && after.store == stored.0 && after.rows == w.rows && after.queued == w.queued && after.waiting == w.waiting
      && (stored.1.Fine? ==> s.(done := |s.payload.records|) in after.sessions)
    decreases |s.payload.records| - s.done
  {
    hide Commit, Advance, Run;
    var rest := s.payload.records[s.done..];
    var next := if s.done + size < |s.payload.records| then s.done + size else |s.payload.records|;
    var after := Chunked(site, w, s, size);
    steps := [Chunk(s, size)];
    OneStep(site, w, Chunk(s, size));
    ChunkIsAStep(site, w, s, size);
    ChunkTouchesNothing(site, w, s, size);
    ChunkOf(s.payload.records, s.done, next);
    if next < |s.payload.records| && Commit(w.store, rest[..size], s.offline, site.judge).1.Fine? {
      var more := SessionStoresTheRest(site, after, s.(done := next), size);
      RunsJoin(site, w, steps, more);
      steps := steps + more;
    }
  }

  /** One call of `ingest` is the run of one thread that nothing interrupts: the same store, and a reply for
      what it accepts. */
  lemma IngestIsARun(site: Site, w: World, thread: nat, p: Payload, offline: bool, configured: int,
                     closing: Outcome)
    returns (steps: seq<Step>)
    ensures var after := Run(site, w, steps);
            var ingested := Ingested(w.store, p, offline, configured, closing, site.judge);
      && after.store == ingested.0 && after.rows == w.rows && after.queued == w.queued && after.waiting == w.waiting
      && (ingested.1.Accepted? ==> (p, ingested.1.ids) in after.replies)
  {
    hide Run, ReadAll, CommitAll, Chunked;
    var s, size := Session(thread, p, IsOffline(p, offline), 0), ChunkSize(configured);
    var begun := Begun(site, w, thread, p, offline);
    steps := [Begin(thread, p, offline)];
    OneStep(site, w, Begin(thread, p, offline));
    if |p.records| <= MAX_RECORDS && KeyOf(p) !in w.store.receipts && ReadAll(p.records, Sender(p), site.judge).Fine? {
      assert p.records[0..] == p.records && begun.store == w.store;
      if p.records != [] {
        var chunks := SessionStoresTheRest(site, begun, s, size);
        RunsJoin(site, w, steps, chunks);
        steps := steps + chunks;
      } else {
        NothingToCommit(w.store, size, s.offline, site.judge);
      }
      var stored := CommitAll(w.store, p.records, size, s.offline, site.judge);
      if stored.1.Fine? && closing.Fine? {
        var whole := s.(done := |p.records|);
        RunsJoin(site, w, steps, [Finish(whole)]);
        OneStep(site, Run(site, w, steps), Finish(whole));
        steps := steps + [Finish(whole)];
      }
    }
  }

  lemma NothingToCommit(s: Store, size: nat, offline: bool, j: Judge)
    requires size > 0
    ensures CommitAll(s, [], size, offline, j) == (s, Fine)
  {
  }

  lemma ChunkIsAStep(site: Site, w: World, s: Session, size: nat)
    ensures Advance(site, w, Chunk(s, size)) == Chunked(site, w, s, size)
  {
  }

  // ---------------------------------------------------------------- the evidence

  ghost predicate StoredWith(s: Store, id: string, evidence: Option<Evidence>) {
    id in s.events && s.events[id].evidence == evidence
  }

  /** Every event stored since the start came with the evidence of a record the manager was sent. */
  ghost predicate Heard(w: World, known: set<string>) {
    && w.queued <= w.said
    && (forall s :: s in w.sessions ==> forall r :: r in s.payload.records ==> r in w.said)
    && EventsHeard(w.store, w.said, known)
  }

  ghost predicate EventsHeard(s: Store, said: set<Record>, known: set<string>) {
    forall id :: (id in s.events && id !in known ==>
      exists r :: r in said && r.eventId == id && StoredWith(s, id, r.evidence))
  }

  lemma SavedIsHeard(s: Store, after: Store, rs: seq<Record>, offline: bool, j: Judge, said: set<Record>,
                     known: set<string>)
    requires Saved(s, rs, offline, j, after) && EventsHeard(s, said, known) && forall r :: r in rs ==> r in said
    ensures EventsHeard(after, said, known)
  {
    forall id | id in after.events && id !in known
      ensures exists r :: r in said && r.eventId == id && StoredWith(after, id, r.evidence)
    {
      if id in s.events {
        var r :| r in said && r.eventId == id && StoredWith(s, id, r.evidence);
        assert StoredWith(after, id, r.evidence);
      } else {
        var r :| r in rs && r.eventId == id && after.events[id] == Entry(r, offline);
        assert Entry(r, offline).evidence == r.evidence;
        assert StoredWith(after, id, r.evidence);
      }
    }
  }

  lemma ChunkIsHeard(site: Site, w: World, s: Session, size: nat, known: set<string>)
    requires ManagerHolds(site, w) && Heard(w, known)
    ensures Heard(Chunked(site, w, s, size), known)
  {
    hide Commit, SessionHolds, Stored, Agrees, EventsHeard, Saved;
    if s in w.sessions && size > 0 && s.done < |s.payload.records| {
      var next := if s.done + size < |s.payload.records| then s.done + size else |s.payload.records|;
      var chunk := s.payload.records[s.done..next];
      assert forall r :: r in chunk ==> r in s.payload.records;
      CommitIsAtomic(w.store, chunk, s.offline, site.judge);
      var after := Commit(w.store, chunk, s.offline, site.judge).0;
      SavedIsHeard(w.store, after, chunk, s.offline, site.judge, w.said, known);
    }
  }

  lemma FinishIsHeard(w: World, s: Session, known: set<string>)
    requires Heard(w, known)
    ensures Heard(Finished(w, s), known)
  {
    FinishTouchesNothing(w, s);
    forall id | id in w.store.events && id !in known
      ensures exists r :: r in w.said && r.eventId == id && StoredWith(Finished(w, s).store, id, r.evidence)
    {
      var r :| r in w.said && r.eventId == id && StoredWith(w.store, id, r.evidence);
      assert StoredWith(Finished(w, s).store, id, r.evidence);
    }
  }

  lemma MoreIsSaid(s: Store, said: set<Record>, more: set<Record>, known: set<string>)
    requires EventsHeard(s, said, known) && said <= more
    ensures EventsHeard(s, more, known)
  {
    forall id | id in s.events && id !in known
      ensures exists r :: r in more && r.eventId == id && StoredWith(s, id, r.evidence)
    {
      var r :| r in said && r.eventId == id && StoredWith(s, id, r.evidence);
      assert r in more;
    }
  }

  lemma BeginIsHeard(site: Site, w: World, thread: nat, p: Payload, offline: bool, known: set<string>)
    requires Heard(w, known)
    ensures Heard(Begun(site, w, thread, p, offline), known)
  {
    hide EventsHeard, ReadAll;
    MoreIsSaid(w.store, w.said, Begun(site, w, thread, p, offline).said, known);
  }

  lemma StepIsHeard(site: Site, w: World, s: Step, known: set<string>)
    requires ManagerHolds(site, w) && Heard(w, known)
    ensures Heard(Advance(site, w, s), known)
  {
    hide Chunked, Finished, ManagerHolds, Settled, Enqueued, Restarted, StoredWith, Upload, Uploading;
    match s
    case Begin(thread, p, offline) => BeginIsHeard(site, w, thread, p, offline, known);
    case Chunk(session, size) => ChunkIsHeard(site, w, session, size, known);
    case Finish(session) => FinishTouchesNothing(w, session); FinishIsHeard(w, session, known);
    case Enqueue(record, kind, severity) => MoreIsSaid(w.store, w.said, w.said + {record}, known);
    case Arrives(ids, later) =>
      if w.waiting.Some? { SettlingKeepsTheRest(w, w.waiting.value, Acknowledged(ids), later); }
    case Fails(reply, later) =>
      if w.waiting.Some? { SettlingKeepsTheRest(w, w.waiting.value, reply, later); }
    case _ =>
  }

  /** Only one record goes by a name: the same identifier is never queued, nor sent by anyone else, with
      another record behind it. */
  ghost predicate OneRecordPerName(said: set<Record>) {
    forall a, b :: a in said && b in said && a.eventId == b.eventId ==> a == b
  }

  lemma {:induction false} RunIsHeard(site: Site, s0: Store, steps: seq<Step>)
    requires Sound(s0, site.judge)
    ensures Heard(Run(site, Start(s0), steps), s0.events.Keys)
  {
    hide Advance;
    if steps != [] {
      RunIsHeard(site, s0, steps[..|steps| - 1]);
      RunKeeps(site, s0, steps[..|steps| - 1]);
      StepIsHeard(site, Run(site, Start(s0), steps[..|steps| - 1]), steps[|steps| - 1], s0.events.Keys);
    }
  }

  /** Then every queued record is still queued, or stored with its own evidence, which was imported once. */
  lemma EvidenceReachesTheManager(site: Site, s0: Store, steps: seq<Step>, r: Record)
    requires Sound(s0, site.judge) && r.eventId !in s0.events
    requires var w := Run(site, Start(s0), steps); r in w.queued && OneRecordPerName(w.said)
    ensures var w := Run(site, Start(s0), steps);
      || Holds(w.rows, r)
      || (Agrees(w.store, r) && StoredWith(w.store, r.eventId, r.evidence)
          && multiset(w.store.imports)[r.eventId] == (if r.evidence.Some? then 1 else 0))
  {
    hide Run, Carries;
    var w := Run(site, Start(s0), steps);
    RunKeeps(site, s0, steps);
    RunIsHeard(site, s0, steps);
    assert Kept(w, r);
    if !Holds(w.rows, r) {
      var q :| q in w.said && q.eventId == r.eventId && StoredWith(w.store, q.eventId, q.evidence);
      assert q == r;
    }
  }

  /** And a command that was executed offline counts as reported only when its evidence is at the manager. */
  lemma ReportedOfflineMeansImported(site: Site, s0: Store, steps: seq<Step>, command: string) returns (r: Record)
    requires Sound(s0, site.judge)
    requires var w := Run(site, Start(s0), steps);
             && command in w.reported && OneRecordPerName(w.said)
             && forall q :: q in w.queued && Executed(q, command) ==> q.eventId !in s0.events
    ensures var w := Run(site, Start(s0), steps);
      && r in w.queued && r.evidence.Some? && command in r.evidence.value.commands
      && StoredWith(w.store, r.eventId, r.evidence) && multiset(w.store.imports)[r.eventId] == 1
  {
    hide Run, Carries;
    var w := Run(site, Start(s0), steps);
    RunKeeps(site, s0, steps);
    RunIsHeard(site, s0, steps);
    assert Arrived(w, command);
    r :| r in w.queued && Executed(r, command) && Agrees(w.store, r);
    var q :| q in w.said && q.eventId == r.eventId && StoredWith(w.store, q.eventId, q.evidence);
    assert q == r;
  }

  // ---------------------------------------------------------------- what is queued, and a restart

  /** Whatever is enqueued counts as queued and has its row, unless another record, or the same of another kind or
      severity, has a row under its name; then nothing changes. */
  lemma EnqueuedIsQueued(site: Site, w: World, record: Record, kind: string, severity: string)
    requires Unique(w.rows)
    ensures var after := Advance(site, w, Enqueue(record, kind, severity));
      if exists row :: row in w.rows && row.record.eventId == record.eventId
                       && (row.record != record || row.kind != kind || row.severity != severity)
      then after == w
      else record in after.queued && exists row :: row in after.rows && row.record == record
  {
    var found := Find(w.rows, record.eventId);
    var after := Advance(site, w, Enqueue(record, kind, severity));
    if found.Some? {
      assert forall row :: row in w.rows && row.record.eventId == record.eventId ==> row == found.value;
    } else {
      assert after.rows[|w.rows|].record == record;
    }
  }

  /** A restart of the agent leaves nothing in flight and no batch open, and every record in its row; what waited
      or was set aside is as it was. */
  lemma RestartFreesTheQueue(site: Site, w: World)
    ensures var after := Advance(site, w, AgentStarts);
      && after.waiting == None && after.store == w.store && after.queued == w.queued && |after.rows| == |w.rows|
      && forall i :: 0 <= i < |w.rows| ==>
           && after.rows[i].record == w.rows[i].record && after.rows[i].attempts == w.rows[i].attempts
           && !after.rows[i].status.InFlight?
           && (w.rows[i].status.InFlight? ==> after.rows[i].status.RetryPending?)
           && (!w.rows[i].status.InFlight? ==> after.rows[i] == w.rows[i])
  {
  }

  // ---------------------------------------------------------------- a cycle of the agent is one of the runs

  /** One synchronization cycle of the agent, whatever the reply, is a run of two steps: the same rows and the same
      reported commands. An acknowledgement must be one the manager gave. */
  lemma CycleIsARun(site: Site, w: World, max: int, adaptive: Option<int>, now: int, later: int, reply: Reply)
    returns (steps: seq<Step>)
    requires max >= 1 && w.waiting.None?
    requires var batch := Upload(site.endpoint, max, Agent(w.rows, adaptive, w.reported), now);
             reply.Acknowledged? ==> (Request(site, batch), reply.ids) in w.replies
    ensures var after := Run(site, w, steps);
            var cycle := AfterCycle(site.endpoint, max, Agent(w.rows, adaptive, w.reported), now, later, reply);
      && after.rows == cycle.rows && after.reported == cycle.reported && after.waiting == None
      && after.store == w.store && after.queued == w.queued
  {
    hide Run, Upload, Uploading;
    var a := Agent(w.rows, adaptive, w.reported);
    var batch := Upload(site.endpoint, max, a, now);
    var send := Send(max, adaptive, now, later);
    steps := [send];
    OneStep(site, w, send);
    if batch != [] {
      var second := if reply.Acknowledged? then Arrives(reply.ids, later) else Fails(reply, later);
      RunsJoin(site, w, [send], [second]);
      OneStep(site, Run(site, w, [send]), second);
      steps := [send] + [second];
      RowsIgnoreTheSize(a.(rows := Uploading(site.endpoint, max, a, now, later)), batch, max, reply, later);
    }
  }

  lemma RowsIgnoreTheSize(a: Agent, batch: seq<Record>, max: int, reply: Reply, later: int)
    ensures var after, other := AfterReply(a, batch, max, reply, later),
                                AfterReply(a.(adaptive := None), batch, 1, reply, later);
      after.rows == other.rows && after.reported == other.reported
  {
    hide Retry, Without, Known;
  }
}
