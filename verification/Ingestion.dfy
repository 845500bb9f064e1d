/**
The manager's ingestion of an uploaded batch: receipts, the up-front reading of every record, and the
storing of the records in chunks, each chunk one transaction.
*/
module Ingestion {
  import opened Options
  import opened Telemetry

  /** A stored event. `evidence` is the offline evidence imported with it; such an event is complete at once. */
  datatype Stored = Stored(
    agentId: string, raw: Option<string>, normalized: string, offline: bool, evidence: Option<Evidence>)

  /** How a step ends. A refusal is answered with status 400. An exception of any other type than the ones
      the server turns into an answer leaves the request without one. */
  datatype Outcome = Fine | Refused | Broken

  /** The parts of ingestion that are not modelled further: decoding a record, and re-checking and importing
      its offline evidence. Neither depends on what is stored. */
  datatype Judge = Judge(decoding: Record -> Outcome, importing: Record -> Outcome)

  /** The name a batch goes by; the digest of the records is an injective name. */
  datatype BatchId = Named(name: string) | OfRecords(records: seq<Record>)

  datatype Payload =
    | Envelope(agentId: string, batchId: Option<BatchId>, records: seq<Record>)
    | Listing(records: seq<Record>)

  datatype Receipt = Receipt(payload: Payload, accepted: seq<string>)

  datatype Store = Store(events: map<string, Stored>, imports: seq<string>, receipts: map<(string, BatchId), Receipt>)

  datatype Answer = Accepted(ids: seq<string>) | Rejected | Unanswered

  const MAX_RECORDS: nat := 500
  const AGENT_ONLINE := "AGENT_ONLINE"
  const AGENT_OFFLINE := "AGENT_OFFLINE"

  function Sender(p: Payload): string {
    match p
    case Envelope(agentId, _, _) => agentId
    case Listing(records) => if records == [] then "" else records[0].agentId
  }

  function KeyOf(p: Payload): (string, BatchId) {
    (Sender(p), if p.Envelope? && p.batchId.Some? then p.batchId.value else OfRecords(p.records))
  }

  function AnswerTo(o: Outcome): Answer {
    if o.Broken? then Unanswered else Rejected
  }

  // ---------------------------------------------------------------- reading

  function Read(r: Record, agentId: string, j: Judge): Outcome {
    if !j.decoding(r).Fine? then j.decoding(r)
    else if r.agentId != agentId then Refused
    else if r.source.Some? && r.source.value != AGENT_ONLINE && r.source.value != AGENT_OFFLINE then Refused
    else Fine
  }

  function ReadAll(rs: seq<Record>, agentId: string, j: Judge): Outcome {
    if rs == [] then Fine
    else if !Read(rs[0], agentId, j).Fine? then Read(rs[0], agentId, j)
    else ReadAll(rs[1..], agentId, j)
  }

  // ---------------------------------------------------------------- storing

  /** The stored event is the record's telemetry: of the same agent and with the same raw form, or, where there is
      none, with the same normalized form. */
  ghost predicate Carries(e: Stored, r: Record) {
    && e.agentId == r.agentId && e.raw == r.raw
    && (r.raw.None? ==> e.normalized == r.normalized)
  }

  /** The comparison with a stored event. */
  predicate Differs(e: Stored, r: Record) {
    e.raw != r.raw || e.agentId != r.agentId || (r.raw.None? && e.normalized != r.normalized)
  }

  function Entry(r: Record, offline: bool): Stored {
    Stored(r.agentId, r.raw, r.normalized, if r.source.Some? then r.source.value == AGENT_OFFLINE else offline,
           r.evidence)
  }

  function SaveOne(s: Store, r: Record, offline: bool, j: Judge): (Store, Outcome) {
    if r.eventId in s.events then (s, if Differs(s.events[r.eventId], r) then Refused else Fine)
    else if r.evidence.Some? && !j.importing(r).Fine? then (s, j.importing(r))
    else
      (s.(events := s.events[r.eventId := Entry(r, offline)],
          imports := s.imports + (if r.evidence.Some? then [r.eventId] else [])), Fine)
  }

  /** Records saved one after the other, up to the first that fails. */
  function SaveAll(s: Store, rs: seq<Record>, offline: bool, j: Judge): (Store, Outcome)
    decreases |rs|
  {
    if rs == [] then (s, Fine)
    else
      var one := SaveOne(s, rs[0], offline, j);
      if one.1.Fine? then SaveAll(one.0, rs[1..], offline, j) else one
  }

  /** One transaction: all of the chunk or nothing. */
  function Commit(s: Store, rs: seq<Record>, offline: bool, j: Judge): (Store, Outcome) {
    var all := SaveAll(s, rs, offline, j);
    if all.1.Fine? then all else (s, all.1)
  }

  /** Chunk after chunk; the ones before a failing chunk stay committed. */
  function CommitAll(s: Store, rs: seq<Record>, size: nat, offline: bool, j: Judge): (Store, Outcome)
    requires size > 0
    decreases |rs|
  {
    if |rs| <= size then Commit(s, rs, offline, j)
    else
      var first := Commit(s, rs[..size], offline, j);
      if first.1.Fine? then CommitAll(first.0, rs[size..], size, offline, j) else first
  }

  function ChunkSize(configured: int): (size: nat)
    ensures 1 <= size <= 50
    ensures 1 <= configured <= 50 ==> size == configured
    ensures configured > 50 ==> size == 50
    ensures configured < 1 ==> size == 1
  {
    if configured < 1 then 1 else if configured > 50 then 50 else configured
  }

  predicate IsOffline(p: Payload, offline: bool) {
    offline || (p.Envelope? && p.batchId.Some?)
  }

  /** `closing` is how the last transaction takes the command results and responses in the envelope: fine, as it
      is for the agent's uploads, which have none, or not. */
  function Ingested(s: Store, p: Payload, offline: bool, configured: int, closing: Outcome, j: Judge): (Store, Answer) {
    if |p.records| > MAX_RECORDS then (s, Rejected)
    else if KeyOf(p) in s.receipts then
      (s, if s.receipts[KeyOf(p)].payload != p then Rejected else Accepted(s.receipts[KeyOf(p)].accepted))
    else if !ReadAll(p.records, Sender(p), j).Fine? then (s, AnswerTo(ReadAll(p.records, Sender(p), j)))
    else
      var stored := CommitAll(s, p.records, ChunkSize(configured), IsOffline(p, offline), j);
      if !stored.1.Fine? then (stored.0, AnswerTo(stored.1))
      else if !closing.Fine? then (stored.0, AnswerTo(closing))
      else (WithReceipt(stored.0, p), Accepted(Ids(p.records)))
  }

  /** A receipt, once written, is not replaced. */
  function WithReceipt(s: Store, p: Payload): Store {
    if KeyOf(p) in s.receipts then s
    else s.(receipts := s.receipts[KeyOf(p) := Receipt(p, Ids(p.records))])
  }

  class IngestStore {
    var events: map<string, Stored>
    var imports: seq<string>
    var receipts: map<(string, BatchId), Receipt>

    constructor ()
      ensures Value() == Store(map[], [], map[])
    {
      events, imports, receipts := map[], [], map[];
    }

    function Value(): Store
      reads this
    {
      Store(events, imports, receipts)
    }

    method SaveEvent(r: Record, offline: bool) returns (outcome: Outcome, inserted: bool)
      modifies this`events
      ensures outcome == (if r.eventId in old(events) ==> Carries(old(events)[r.eventId], r) then Fine else Refused)
      ensures inserted <==> r.eventId !in old(events)
      ensures events == if inserted then old(events)[r.eventId := Entry(r, offline)] else old(events)
    {
      if r.eventId in events {
        outcome := if Differs(events[r.eventId], r) then Refused else Fine;
        inserted := false;
      } else {
        events := events[r.eventId := Entry(r, offline)];
        outcome, inserted := Fine, true;
      }
    }

    /** One transaction: the loop stops at the first failure and everything it wrote is rolled back. */
    method StoreChunk(rs: seq<Record>, offline: bool, j: Judge) returns (outcome: Outcome)
      modifies this
      ensures (Value(), outcome) == Commit(old(Value()), rs, offline, j)
      ensures receipts == old(receipts)
    {
      var savedEvents, savedImports := events, imports;
      outcome := Fine;
      var i := 0;
      while i < |rs| && outcome.Fine?
        invariant 0 <= i <= |rs| && receipts == old(receipts)
        invariant outcome.Fine? ==> SaveAll(old(Value()), rs, offline, j) == SaveAll(Value(), rs[i..], offline, j)
        invariant !outcome.Fine? ==> SaveAll(old(Value()), rs, offline, j).1 == outcome
      {
        ghost var before := Value();
        assert rs[i..][0] == rs[i] && rs[i..][1..] == rs[i + 1..];
        var saved, inserted := SaveEvent(rs[i], offline);
        outcome := saved;
        if inserted && rs[i].evidence.Some? {
          outcome := j.importing(rs[i]);
          if outcome.Fine? { imports := imports + [rs[i].eventId]; }
        }
        assert before.imports + [] == before.imports;
        assert outcome.Fine? ==> (Value(), Fine) == SaveOne(before, rs[i], offline, j);
        i := i + 1;
      }
      if !outcome.Fine? { events, imports := savedEvents, savedImports; }
    }

    method ReadBatch(rs: seq<Record>, agentId: string, j: Judge) returns (outcome: Outcome)
      ensures outcome == ReadAll(rs, agentId, j)
    {
      var n := 0;
      while n < |rs|
        invariant 0 <= n <= |rs|
        invariant ReadAll(rs, agentId, j) == ReadAll(rs[n..], agentId, j)
      {
        assert rs[n..][0] == rs[n] && rs[n..][1..] == rs[n + 1..];
        outcome := Read(rs[n], agentId, j);
        if !outcome.Fine? { return; }
        n := n + 1;
      }
      outcome := Fine;
    }

    method StoreBatch(rs: seq<Record>, size: nat, offline: bool, j: Judge)
      returns (outcome: Outcome, accepted: seq<string>)
      requires size > 0
      modifies this
      ensures (Value(), outcome) == CommitAll(old(Value()), rs, size, offline, j)
      ensures receipts == old(receipts) && (outcome.Fine? ==> accepted == Ids(rs))
    {
      var offset := 0;
      outcome, accepted := Fine, [];
      assert rs[0..] == rs && rs[..0] == [];
      while offset < |rs|
        invariant 0 <= offset <= |rs| && receipts == old(receipts)
        invariant outcome.Fine? && accepted == Ids(rs[..offset])
        invariant CommitAll(old(Value()), rs, size, offline, j) == CommitAll(Value(), rs[offset..], size, offline, j)
        decreases |rs| - offset
      {
        var next := if offset + size < |rs| then offset + size else |rs|;
        var chunk := rs[offset..next];
        ChunkOf(rs, offset, next);
        outcome := StoreChunk(chunk, offline, j);
        if !outcome.Fine? { return; }
        accepted := accepted + Ids(chunk);
        offset := next;
      }
      assert rs[..offset] == rs && rs[offset..] == [];
      assert CommitAll(Value(), [], size, offline, j) == (Value(), Fine);
    }

    method Ingest(p: Payload, offline: bool, configured: int, closing: Outcome, j: Judge) returns (answer: Answer)
      modifies this
      ensures (Value(), answer) == Ingested(old(Value()), p, offline, configured, closing, j)
    {
      hide CommitAll, Commit, ReadAll;
      if |p.records| > MAX_RECORDS { return Rejected; }
      var key := KeyOf(p);
      if key in receipts {
        if receipts[key].payload != p { return Rejected; }
        return Accepted(receipts[key].accepted);
      }
      var outcome := ReadBatch(p.records, Sender(p), j);
      if !outcome.Fine? { return AnswerTo(outcome); }
      var accepted;
      outcome, accepted := StoreBatch(p.records, ChunkSize(configured), IsOffline(p, offline), j);
      if !outcome.Fine? { return AnswerTo(outcome); }
      if !closing.Fine? { return AnswerTo(closing); }
      receipts := receipts[key := Receipt(p, accepted)];
      answer := Accepted(accepted);
    }
  }

  lemma ChunkOf(rs: seq<Record>, offset: nat, next: nat)
    requires offset <= next <= |rs|
    ensures rs[offset..next] == rs[offset..][..next - offset] && rs[next..] == rs[offset..][next - offset..]
    ensures Ids(rs[..next]) == Ids(rs[..offset]) + Ids(rs[offset..next])
    ensures next == |rs| ==> rs[offset..next] == rs[offset..] && rs[next..] == []
  {
  }

  // ---------------------------------------------------------------- what ingestion keeps

  ghost predicate Agrees(s: Store, r: Record) {
    r.eventId in s.events && Carries(s.events[r.eventId], r)
  }

  /** Nothing stored is ever changed or removed. */
  ghost predicate Extends(before: Store, after: Store) {
    && (forall id :: id in before.events ==> id in after.events && after.events[id] == before.events[id])
    && (forall k :: k in before.receipts ==> k in after.receipts && after.receipts[k] == before.receipts[k])
  }

  /** Evidence was imported once for every event stored with it, and for no other. */
  ghost predicate ImportedOnce(s: Store) {
    forall id :: multiset(s.imports)[id] == (if id in s.events && s.events[id].evidence.Some? then 1 else 0)
  }

  /** A receipt names exactly the records of its batch, and they are all stored. */
  ghost predicate Vouches(s: Store, k: (string, BatchId), j: Judge)
    requires k in s.receipts
  {
    var receipt := s.receipts[k];
    && receipt.accepted == Ids(receipt.payload.records)
    && KeyOf(receipt.payload) == k
    && forall r :: r in receipt.payload.records ==> Agrees(s, r) && Read(r, k.0, j).Fine?
  }

  ghost predicate Sound(s: Store, j: Judge) {
    ImportedOnce(s) && forall k :: k in s.receipts ==> Vouches(s, k, j)
  }

  lemma ExtendedVouches(s: Store, after: Store, j: Judge)
    requires Sound(s, j) && Extends(s, after) && after.receipts == s.receipts && ImportedOnce(after)
    ensures Sound(after, j)
  {
    forall k | k in after.receipts ensures Vouches(after, k, j) {
      assert Vouches(s, k, j);
    }
  }

  /** What a failing or succeeding save of several records leaves. Every event that is new was stored
      from one of the records. */
  ghost predicate Saved(s: Store, rs: seq<Record>, offline: bool, j: Judge, after: Store) {
    && Extends(s, after) && after.receipts == s.receipts && ImportedOnce(after)
    && forall id :: id in after.events && id !in s.events ==>
         exists r :: r in rs && Storable(r, j) && r.eventId == id && after.events[id] == Entry(r, offline)
  }

  predicate Storable(r: Record, j: Judge) { r.evidence.None? || j.importing(r).Fine? }

  lemma SaveOneKeeps(s: Store, r: Record, offline: bool, j: Judge)
    requires ImportedOnce(s)
    ensures Saved(s, [r], offline, j, SaveOne(s, r, offline, j).0)
    ensures SaveOne(s, r, offline, j).1.Fine? ==> Agrees(SaveOne(s, r, offline, j).0, r)
  {
    hide ImportedOnce;
    if r.eventId !in s.events && Storable(r, j) {
      assert r in [r];
      ImportIsCounted(s, r, offline);
    }
  }

  lemma ImportIsCounted(s: Store, r: Record, offline: bool)
    requires ImportedOnce(s) && r.eventId !in s.events
    ensures ImportedOnce(s.(events := s.events[r.eventId := Entry(r, offline)],
                            imports := s.imports + (if r.evidence.Some? then [r.eventId] else [])))
  {
    if r.evidence.Some? {
      assert multiset(s.imports + [r.eventId]) == multiset(s.imports) + multiset{r.eventId};
    } else {
      assert s.imports + [] == s.imports;
    }
  }

  lemma SavedChains(s: Store, mid: Store, after: Store, rs: seq<Record>, more: seq<Record>, offline: bool, j: Judge)
    requires Saved(s, rs, offline, j, mid) && Saved(mid, more, offline, j, after)
    ensures Saved(s, rs + more, offline, j, after)
  {
    forall id | id in after.events && id !in s.events
      ensures exists r :: r in rs + more && Storable(r, j) && r.eventId == id && after.events[id] == Entry(r, offline)
    {
      if id in mid.events {
        var r :| r in rs && Storable(r, j) && r.eventId == id && mid.events[id] == Entry(r, offline);
        assert r in rs + more;
      } else {
        var r :| r in more && Storable(r, j) && r.eventId == id && after.events[id] == Entry(r, offline);
        assert r in rs + more;
      }
    }
  }

  lemma {:induction false} SaveAllKeeps(s: Store, rs: seq<Record>, offline: bool, j: Judge)
    requires ImportedOnce(s)
    ensures var all := SaveAll(s, rs, offline, j);
      Saved(s, rs, offline, j, all.0) && (all.1.Fine? ==> forall r :: r in rs ==> Agrees(all.0, r))
    decreases |rs|
  {
    if rs != [] {
      SaveOneKeeps(s, rs[0], offline, j);
      var one := SaveOne(s, rs[0], offline, j);
      assert rs == [rs[0]] + rs[1..];
      if one.1.Fine? {
        SaveAllKeeps(one.0, rs[1..], offline, j);
        SavedChains(s, one.0, SaveAll(s, rs, offline, j).0, [rs[0]], rs[1..], offline, j);
      }
    }
  }

  /** All of a chunk is stored, or the store is as it was. */
  lemma CommitIsAtomic(s: Store, rs: seq<Record>, offline: bool, j: Judge)
    requires ImportedOnce(s)
    ensures var c := Commit(s, rs, offline, j);
      && Saved(s, rs, offline, j, c.0)
      && (if c.1.Fine? then forall r :: r in rs ==> Agrees(c.0, r) else c.0 == s)
  {
    SaveAllKeeps(s, rs, offline, j);
  }

  lemma {:induction false} CommitAllKeeps(s: Store, rs: seq<Record>, size: nat, offline: bool, j: Judge)
    requires ImportedOnce(s) && size > 0
    ensures var c := CommitAll(s, rs, size, offline, j);
      Saved(s, rs, offline, j, c.0) && (c.1.Fine? ==> forall r :: r in rs ==> Agrees(c.0, r))
    decreases |rs|
  {
    if |rs| <= size {
      CommitIsAtomic(s, rs, offline, j);
    } else {
      CommitIsAtomic(s, rs[..size], offline, j);
      var first := Commit(s, rs[..size], offline, j);
      assert rs == rs[..size] + rs[size..];
      if first.1.Fine? {
        CommitAllKeeps(first.0, rs[size..], size, offline, j);
        SavedChains(s, first.0, CommitAll(s, rs, size, offline, j).0, rs[..size], rs[size..], offline, j);
      }
    }
  }

  /** Ingestion, however it ends, stores first-write-wins, imports evidence once, and acknowledges only
      what is stored. */
  lemma IngestKeeps(s: Store, p: Payload, offline: bool, configured: int, closing: Outcome, j: Judge)
    requires Sound(s, j)
    ensures var after := Ingested(s, p, offline, configured, closing, j);
      && Sound(after.0, j) && Extends(s, after.0)
      && (after.1.Accepted? ==>
            && after.1.ids == Ids(p.records)
            && forall r :: r in p.records ==> Agrees(after.0, r) && Read(r, Sender(p), j).Fine?)
      && (!after.1.Accepted? ==> after.0.receipts == s.receipts)
      && (forall id :: id in after.0.events && id !in s.events ==>
            exists r :: r in p.records && Storable(r, j) && r.eventId == id
                        && after.0.events[id] == Entry(r, IsOffline(p, offline)))
  {
    hide CommitAll, ReadAll, Read, ImportedOnce, Carries, Entry, Storable;
    if |p.records| <= MAX_RECORDS && KeyOf(p) in s.receipts {
      assert Vouches(s, KeyOf(p), j);
    } else if |p.records| <= MAX_RECORDS && ReadAll(p.records, Sender(p), j).Fine? {
      StoringKeeps(s, p, offline, configured, j);
    }
  }

  /** The part of ingestion behind the reading: what the chunks leave, and the receipt if there is one. */
  lemma StoringKeeps(s: Store, p: Payload, offline: bool, configured: int, j: Judge)
    requires Sound(s, j) && ReadAll(p.records, Sender(p), j).Fine?
    ensures var stored := CommitAll(s, p.records, ChunkSize(configured), IsOffline(p, offline), j);
      && Sound(stored.0, j) && Saved(s, p.records, IsOffline(p, offline), j, stored.0)
      && (forall r :: r in p.records ==> Read(r, Sender(p), j).Fine?)
      && (stored.1.Fine? ==>
            && (forall r :: r in p.records ==> Agrees(stored.0, r))
            && Sound(WithReceipt(stored.0, p), j) && Extends(stored.0, WithReceipt(stored.0, p))
            && WithReceipt(stored.0, p).events == stored.0.events)
  {
    hide CommitAll, ReadAll, Read, Agrees, ImportedOnce, WithReceipt, Extends;
    var stored := CommitAll(s, p.records, ChunkSize(configured), IsOffline(p, offline), j);
    CommitAllKeeps(s, p.records, ChunkSize(configured), IsOffline(p, offline), j);
    ExtendedVouches(s, stored.0, j);
    ReadAllIs(p.records, Sender(p), j);
    ReceiptKeeps(stored.0, p, j);
  }

  lemma ReceiptKeeps(s: Store, p: Payload, j: Judge)
    requires Sound(s, j)
    ensures (forall r :: r in p.records ==> Agrees(s, r) && Read(r, Sender(p), j).Fine?) ==> Sound(WithReceipt(s, p), j)
    ensures Extends(s, WithReceipt(s, p)) && WithReceipt(s, p).events == s.events
  {
    var after := WithReceipt(s, p);
    if forall r :: r in p.records ==> Agrees(s, r) && Read(r, Sender(p), j).Fine? {
      forall k | k in after.receipts ensures Vouches(after, k, j) {
        if k in s.receipts { assert Vouches(s, k, j); }
      }
    }
  }

  // ---------------------------------------------------------------- exactly which batches are accepted

  /** What is wrong with a record, judged against what was stored before the batch. */
  function Fault(s: Store, r: Record, agentId: string, j: Judge): Outcome {
    if !Read(r, agentId, j).Fine? then Read(r, agentId, j)
    else if r.eventId in s.events then (if Differs(s.events[r.eventId], r) then Refused else Fine)
    else if r.evidence.Some? then j.importing(r)
    else Fine
  }

  lemma {:induction false} ReadAllIs(rs: seq<Record>, agentId: string, j: Judge)
    ensures ReadAll(rs, agentId, j).Fine? <==> forall r :: r in rs ==> Read(r, agentId, j).Fine?
    ensures !ReadAll(rs, agentId, j).Fine? ==> exists r :: r in rs && Read(r, agentId, j) == ReadAll(rs, agentId, j)
  {
    if rs != [] {
      assert rs == [rs[0]] + rs[1..];
      ReadAllIs(rs[1..], agentId, j);
    }
  }

  /** The store's verdict on a record does not depend on other records of other names being stored first. */
  ghost predicate SameVerdict(s: Store, t: Store, r: Record) {
    (r.eventId in s.events <==> r.eventId in t.events)
    && (r.eventId in s.events ==> s.events[r.eventId] == t.events[r.eventId])
  }

  lemma {:induction false} SaveAllExactly(s: Store, t: Store, rs: seq<Record>, agentId: string, offline: bool, j: Judge)
    requires DistinctIds(rs)
    requires forall r :: r in rs ==> SameVerdict(s, t, r) && Read(r, agentId, j).Fine?
    ensures SaveAll(t, rs, offline, j).1.Fine? <==> forall r :: r in rs ==> Fault(s, r, agentId, j).Fine?
    ensures !SaveAll(t, rs, offline, j).1.Fine? ==>
              exists r :: r in rs && Fault(s, r, agentId, j) == SaveAll(t, rs, offline, j).1
    decreases |rs|
  {
    if rs != [] {
      assert rs == [rs[0]] + rs[1..];
      var one := SaveOne(t, rs[0], offline, j);
      assert rs[0] in rs && one.1 == Fault(s, rs[0], agentId, j);
      if one.1.Fine? {
        forall r | r in rs[1..] ensures SameVerdict(s, one.0, r) {
          assert r in rs && r.eventId != rs[0].eventId;
        }
        SaveAllExactly(s, one.0, rs[1..], agentId, offline, j);
      }
    }
  }

  lemma {:induction false} CommitAllExactly(
    s: Store, t: Store, rs: seq<Record>, size: nat, agentId: string, offline: bool, j: Judge)
    requires DistinctIds(rs) && size > 0 && ImportedOnce(t)
    requires forall r :: r in rs ==> SameVerdict(s, t, r) && Read(r, agentId, j).Fine?
    ensures CommitAll(t, rs, size, offline, j).1.Fine? <==> forall r :: r in rs ==> Fault(s, r, agentId, j).Fine?
    ensures !CommitAll(t, rs, size, offline, j).1.Fine? ==>
              exists r :: r in rs && Fault(s, r, agentId, j) == CommitAll(t, rs, size, offline, j).1
    decreases |rs|
  {
    hide Fault;
    if |rs| <= size {
      SaveAllExactly(s, t, rs, agentId, offline, j);
    } else {
      var chunk := rs[..size];
      var first := Commit(t, chunk, offline, j);
      assert rs == chunk + rs[size..];
      SaveAllExactly(s, t, chunk, agentId, offline, j);
      CommitIsAtomic(t, chunk, offline, j);
      if first.1.Fine? {
        forall r | r in rs[size..] ensures SameVerdict(s, first.0, r) {
          assert r in rs && SameVerdict(s, t, r);
          LaterRecordIsUntouched(t, first.0, rs, size, r, offline, j);
        }
        CommitAllExactly(s, first.0, rs[size..], size, agentId, offline, j);
      }
    }
  }

  lemma LaterRecordIsUntouched(t: Store, after: Store, rs: seq<Record>, size: nat, r: Record, offline: bool, j: Judge)
    requires DistinctIds(rs) && size <= |rs| && Saved(t, rs[..size], offline, j, after) && r in rs[size..]
    ensures SameVerdict(t, after, r)
  {
    forall other | other in rs[..size] ensures other.eventId != r.eventId {
      var a :| 0 <= a < size && rs[a] == other;
      var b :| size <= b < |rs| && rs[b] == r;
      assert rs[a].eventId != rs[b].eventId;
    }
  }

  /** Nothing is wrong with the record: it can be decoded, is of this agent and from a known source, and is either
      new, with evidence that passes if it has any, or stored already as the same telemetry. */
  ghost predicate Faultless(s: Store, r: Record, agentId: string, j: Judge) {
    && j.decoding(r).Fine? && r.agentId == agentId
    && (r.source.Some? ==> r.source.value in ["AGENT_ONLINE", "AGENT_OFFLINE"])
    && (if r.eventId in s.events then Carries(s.events[r.eventId], r)
        else r.evidence.Some? ==> j.importing(r).Fine?)
  }

  /** The record makes the request fail without an answer: by its decoding, or, if it is readable and new, by the
      import of its evidence. */
  ghost predicate Breaks(s: Store, r: Record, agentId: string, j: Judge) {
    || j.decoding(r).Broken?
    || (j.decoding(r).Fine? && r.agentId == agentId
        && (r.source.Some? ==> r.source.value in ["AGENT_ONLINE", "AGENT_OFFLINE"])
        && r.eventId !in s.events && r.evidence.Some? && j.importing(r).Broken?)
  }

  lemma FaultsAre(s: Store, agentId: string, j: Judge)
    ensures forall r :: Fault(s, r, agentId, j).Fine? <==> Faultless(s, r, agentId, j)
    ensures forall r :: Fault(s, r, agentId, j).Broken? <==> Breaks(s, r, agentId, j)
  {
  }

  /** The agent whose records a request may hold: the one its envelope names, or the first record's. */
  ghost function Owner(p: Payload): string {
    if p.Envelope? then p.agentId else if p.records != [] then p.records[0].agentId else ""
  }

  /** A batch of distinct events is accepted exactly when it is no longer than 500 records, no other batch was taken
      under its name, none of its records is at fault, and what else its envelope holds is taken, or was before. It
      goes unanswered only because of something that breaks the request. */
  lemma AcceptsExactlyFaultlessBatches(s: Store, p: Payload, offline: bool, configured: int, closing: Outcome, j: Judge)
    requires Sound(s, j) && DistinctIds(p.records)
    ensures var known := KeyOf(p) in s.receipts;
      Ingested(s, p, offline, configured, closing, j).1.Accepted? <==>
        && |p.records| <= 500 && (known ==> s.receipts[KeyOf(p)].payload == p) && (known || closing.Fine?)
        && forall r :: r in p.records ==> Faultless(s, r, Owner(p), j)
    ensures Ingested(s, p, offline, configured, closing, j).1.Unanswered? ==>
              closing.Broken? || exists r :: r in p.records && Breaks(s, r, Owner(p), j)
    ensures Ingested(s, p, offline, configured, closing, j).1.Rejected? ==>
              || |p.records| > 500 || (KeyOf(p) in s.receipts && s.receipts[KeyOf(p)].payload != p) || closing.Refused?
              || exists r :: r in p.records && !Faultless(s, r, Owner(p), j) && !Breaks(s, r, Owner(p), j)
  {
    hide CommitAll, ReadAll, SaveAll, Fault, Faultless, Breaks;
    assert Sender(p) == Owner(p);
    FaultsAre(s, Owner(p), j);
    if KeyOf(p) in s.receipts {
      if s.receipts[KeyOf(p)].payload == p { VouchedIsFaultless(s, p, j); }
    } else {
      ReadAllIs(p.records, Sender(p), j);
      if ReadAll(p.records, Sender(p), j).Fine? {
        CommitAllExactly(s, s, p.records, ChunkSize(configured), Sender(p), IsOffline(p, offline), j);
      } else {
        var r :| r in p.records && Read(r, Sender(p), j) == ReadAll(p.records, Sender(p), j);
        UnreadableIsAtFault(s, r, Sender(p), j);
      }
    }
  }

  /** A record of a stored event is taken exactly when agent and raw form are those stored, and the normalized form
      too where there is no raw one. It changes nothing either way. */
  lemma KnownEventIsTakenExactly(s: Store, r: Record, offline: bool, configured: int, closing: Outcome, j: Judge)
    requires Sound(s, j) && r.eventId in s.events && r.source.None? && j.decoding(r).Fine? && closing.Fine?
    requires KeyOf(Listing([r])) !in s.receipts
    ensures var e := s.events[r.eventId];
            var after := Ingested(s, Listing([r]), offline, configured, closing, j);
      && (after.1.Accepted? <==> e.agentId == r.agentId && e.raw == r.raw
                                 && (r.raw == None ==> e.normalized == r.normalized))
      && after.0.events == s.events && after.0.imports == s.imports
  {
    hide Ingested, Sound, ImportedOnce, Vouches;
    AcceptsExactlyFaultlessBatches(s, Listing([r]), offline, configured, closing, j);
    KnownEventChangesNothing(s, r, offline, configured, closing, j);
    assert |Listing([r]).records| == 1;
    assert Owner(Listing([r])) == r.agentId;
    assert r in Listing([r]).records && forall x :: x in Listing([r]).records ==> x == r;
  }

  lemma KnownEventChangesNothing(s: Store, r: Record, offline: bool, configured: int, closing: Outcome, j: Judge)
    requires r.eventId in s.events
    ensures var after := Ingested(s, Listing([r]), offline, configured, closing, j);
      after.0.events == s.events && after.0.imports == s.imports
  {
    hide ReadAll;
    var one := SaveOne(s, r, IsOffline(Listing([r]), offline), j);
    assert [r][1..] == [];
    assert SaveAll(one.0, [], IsOffline(Listing([r]), offline), j) == (one.0, Fine);
  }

  /** A newly stored event holds what its record holds, and counts as offline where the record says so, or where it
      says nothing and the request came as offline or under a batch name. */
  lemma NewEventsHoldTheirRecords(s: Store, p: Payload, offline: bool, configured: int, closing: Outcome, j: Judge,
                                  id: string)
    requires Sound(s, j)
    requires id in Ingested(s, p, offline, configured, closing, j).0.events && id !in s.events
    ensures var e := Ingested(s, p, offline, configured, closing, j).0.events[id];
      exists r :: r in p.records && r.eventId == id
        && e.agentId == r.agentId && e.raw == r.raw && e.normalized == r.normalized && e.evidence == r.evidence
        && (e.offline <==> r.source == Some("AGENT_OFFLINE")
                           || (r.source == None && (offline || (p.Envelope? && p.batchId != None))))
  {
    hide Ingested, Sound, Read, Storable;
    IngestKeeps(s, p, offline, configured, closing, j);
  }

  /** Two requests go by the same name exactly when they are of the same agent and name the same batch, or have no
      name for it but the same records. */
  lemma NamesTellBatchesApart(p: Payload, q: Payload)
    ensures Unnamed(p) && Unnamed(q) ==> (KeyOf(p) == KeyOf(q) <==> Owner(p) == Owner(q) && p.records == q.records)
    ensures !Unnamed(p) && !Unnamed(q) ==> (KeyOf(p) == KeyOf(q) <==> p.agentId == q.agentId && p.batchId == q.batchId)
    ensures Unnamed(p) && !Unnamed(q) ==>
              (KeyOf(p) == KeyOf(q) <==> Owner(p) == q.agentId && q.batchId == Some(OfRecords(p.records)))
  {
  }

  ghost predicate Unnamed(p: Payload) { p.Listing? || p.batchId == None }

  /** What was accepted once is accepted again with the same answer and without effect, whatever was ingested in
      between, and then nothing else is taken under its name. */
  lemma AcceptedForGood(s: Store, p: Payload, q: Payload, offline: bool, configured: int, closing: Outcome, j: Judge,
                        later: Store)
    requires Sound(s, j) && Ingested(s, p, offline, configured, closing, j).1.Accepted?
    requires Extends(Ingested(s, p, offline, configured, closing, j).0, later) && KeyOf(q) == KeyOf(p)
    ensures Ingested(later, p, offline, configured, closing, j)
         == (later, Ingested(s, p, offline, configured, closing, j).1)
    ensures q != p ==> Ingested(later, q, offline, configured, closing, j) == (later, Rejected)
  {
    hide CommitAll, ReadAll, Vouches, ImportedOnce;
    CommitAllKeepsReceipts(s, p.records, ChunkSize(configured), IsOffline(p, offline), j);
    var after := Ingested(s, p, offline, configured, closing, j).0;
    assert KeyOf(p) in after.receipts && after.receipts[KeyOf(p)].payload == p;
  }

  lemma UnreadableIsAtFault(s: Store, r: Record, agentId: string, j: Judge)
    requires !Read(r, agentId, j).Fine?
    ensures Fault(s, r, agentId, j) == Read(r, agentId, j)
  {
  }

  lemma VouchedIsFaultless(s: Store, p: Payload, j: Judge)
    requires Sound(s, j) && KeyOf(p) in s.receipts && s.receipts[KeyOf(p)].payload == p
    ensures forall r :: r in p.records ==> Fault(s, r, Sender(p), j).Fine?
  {
    assert Vouches(s, KeyOf(p), j);
  }

  /** What is wrong with a record does not change by ingesting a batch in which no other record has its name. */
  lemma FaultIsStable(s: Store, p: Payload, r: Record, agentId: string, offline: bool, configured: int,
                      closing: Outcome, j: Judge)
    requires Sound(s, j)
    requires forall other :: other in p.records && other.eventId == r.eventId ==> other == r
    ensures Fault(Ingested(s, p, offline, configured, closing, j).0, r, agentId, j) == Fault(s, r, agentId, j)
  {
    hide Ingested, Read;
    IngestKeeps(s, p, offline, configured, closing, j);
  }

  /** Receipts of an agent's batches hold the very envelopes the agent uploads. */
  ghost predicate OwnReceipts(s: Store, agentId: string) {
    forall k :: k in s.receipts && k.0 == agentId && k.1.OfRecords? ==>
      s.receipts[k].payload == Envelope(agentId, Some(k.1), k.1.records)
  }

  lemma ReceiptsStayOwn(s: Store, agentId: string, batch: seq<Record>, offline: bool, configured: int,
                        closing: Outcome, j: Judge)
    requires OwnReceipts(s, agentId)
    ensures var p := Envelope(agentId, Some(OfRecords(batch)), batch);
      OwnReceipts(Ingested(s, p, offline, configured, closing, j).0, agentId)
  {
    hide CommitAll, ReadAll;
    var p := Envelope(agentId, Some(OfRecords(batch)), batch);
    CommitAllKeepsReceipts(s, batch, ChunkSize(configured), IsOffline(p, offline), j);
  }

  lemma {:induction false} CommitAllKeepsReceipts(s: Store, rs: seq<Record>, size: nat, offline: bool, j: Judge)
    requires size > 0
    ensures CommitAll(s, rs, size, offline, j).0.receipts == s.receipts
    decreases |rs|
  {
    SaveAllKeepsReceipts(s, rs, offline, j);
    if |rs| > size {
      SaveAllKeepsReceipts(s, rs[..size], offline, j);
      CommitAllKeepsReceipts(Commit(s, rs[..size], offline, j).0, rs[size..], size, offline, j);
    }
  }

  lemma {:induction false} SaveAllKeepsReceipts(s: Store, rs: seq<Record>, offline: bool, j: Judge)
    ensures SaveAll(s, rs, offline, j).0.receipts == s.receipts
    decreases |rs|
  {
    if rs != [] {
      SaveAllKeepsReceipts(SaveOne(s, rs[0], offline, j).0, rs[1..], offline, j);
    }
  }

  /** The evidence of an accepted record is what the store holds exactly when nothing with other evidence
      was stored under its event before. */
  lemma EvidenceArrivesExactly(s: Store, p: Payload, r: Record, offline: bool, configured: int, closing: Outcome,
                               j: Judge)
    requires Sound(s, j) && DistinctIds(p.records) && r in p.records
    requires Ingested(s, p, offline, configured, closing, j).1.Accepted?
    ensures var after := Ingested(s, p, offline, configured, closing, j).0;
      && r.eventId in after.events
      && (after.events[r.eventId].evidence == r.evidence <==>
            r.eventId !in s.events || s.events[r.eventId].evidence == r.evidence)
  {
    hide Ingested, Read, Sound, Carries, Storable, Vouches, ImportedOnce;
    IngestKeeps(s, p, offline, configured, closing, j);
    var after := Ingested(s, p, offline, configured, closing, j).0;
    assert Agrees(after, r);
    if r.eventId !in s.events {
      var other :| other in p.records && other.eventId == r.eventId
                   && after.events[r.eventId] == Entry(other, IsOffline(p, offline));
      var a :| 0 <= a < |p.records| && p.records[a] == other;
      var b :| 0 <= b < |p.records| && p.records[b] == r;
      assert a == b;
    }
  }

  /** A second record of a stored event that differs in its evidence alone is acknowledged, and that
      evidence is dropped. */
  lemma SecondEvidenceIsDropped(r: Record, evidence: Evidence, j: Judge)
    requires j.decoding(r).Fine? && r.evidence.None? && r.source.None?
    requires j.decoding(r.(evidence := Some(evidence))).Fine?
    ensures var again := r.(evidence := Some(evidence));
            var first := Ingested(Store(map[], [], map[]), Envelope(r.agentId, None, [r]), true, 10, Fine, j);
            var second := Ingested(first.0, Envelope(r.agentId, None, [again]), true, 10, Fine, j);
      && first.1 == second.1 == Accepted([r.eventId])
      && second.0.imports == [] && r.eventId in second.0.events && second.0.events[r.eventId].evidence.None?
  {
    var again := r.(evidence := Some(evidence));
    var empty := Store(map[], [], map[]);
    var stored := empty.(events := map[r.eventId := Entry(r, true)]);
    SingleBatch(empty, r, j);
    SingleBatch(stored, again, j);
    StoredFirst(r, j);
    var first := Ingested(empty, Envelope(r.agentId, None, [r]), true, 10, Fine, j);
    assert first.0 == WithReceipt(stored, Envelope(r.agentId, None, [r]));
    SingleBatch(first.0, again, j);
    assert [r][0] != [again][0];
    assert Ids([r]) == [r.eventId] == Ids([again]);
  }

  lemma StoredFirst(r: Record, j: Judge)
    requires r.evidence.None?
    ensures SaveOne(Store(map[], [], map[]), r, true, j) == (Store(map[r.eventId := Entry(r, true)], [], map[]), Fine)
  {
    var s := Store(map[], [], map[]);
    assert s.imports + [] == s.imports;
    assert s.events[r.eventId := Entry(r, true)] == map[r.eventId := Entry(r, true)];
  }

  lemma SingleBatch(s: Store, r: Record, j: Judge)
    ensures ReadAll([r], r.agentId, j) == Read(r, r.agentId, j)
    ensures CommitAll(s, [r], 10, true, j) == SaveOne(s, r, true, j)
  {
    assert [r][1..] == [];
    var one := SaveOne(s, r, true, j);
    assert SaveAll(one.0, [], true, j) == (one.0, Fine);
  }

  // ---------------------------------------------------------------- what a refused batch leaves behind

  /** The position of the first record at fault, or the number of records. */
  function FirstFault(s: Store, rs: seq<Record>, agentId: string, j: Judge): (f: nat)
    ensures f <= |rs|
    ensures forall i :: 0 <= i < f ==> Fault(s, rs[i], agentId, j).Fine?
    ensures f < |rs| ==> !Fault(s, rs[f], agentId, j).Fine?
  {
    if rs == [] || !Fault(s, rs[0], agentId, j).Fine? then 0
    else 1 + FirstFault(s, rs[1..], agentId, j)
  }

  /** The records in the chunks before the one with position `f`. */
  function BeforeChunkOf(f: nat, size: nat): (n: nat)
    requires size > 0
    ensures n <= f && n == f / size * size
  {
    WholePart(f, size);
    f / size * size
  }

  lemma WholePart(f: nat, size: nat)
    requires size > 0
    ensures 0 <= f / size * size <= f < f / size * size + size
  {
    assert f == f / size * size + f % size;
  }

  lemma OneChunkFurther(f: nat, size: nat)
    requires 0 < size <= f
    ensures BeforeChunkOf(f, size) == size + BeforeChunkOf(f - size, size)
  {
    var q, k := (f - size) / size, f / size;
    WholePart(f - size, size);
    WholePart(f, size);
    assert (q + 1) * size == q * size + size;
    SameQuotient(k, q + 1, f, size);
  }

  lemma SameQuotient(k: nat, q: nat, f: nat, size: nat)
    requires k * size <= f < k * size + size && q * size <= f < q * size + size
    ensures k == q
  {
    if k < q { LargerByOne(k, q, size); }
    if q < k { LargerByOne(q, k, size); }
  }

  lemma LargerByOne(k: nat, q: nat, size: nat)
    requires k < q
    ensures k * size + size <= q * size
  {
    assert (q - k - 1) * size >= 0;
    assert q * size == k * size + size + (q - k - 1) * size;
  }

  /** How many records are saved one after the other before one fails. */
  function Progress(s: Store, rs: seq<Record>, offline: bool, j: Judge): (n: nat)
    ensures n <= |rs|
    decreases |rs|
  {
    if rs == [] || !SaveOne(s, rs[0], offline, j).1.Fine? then 0
    else 1 + Progress(SaveOne(s, rs[0], offline, j).0, rs[1..], offline, j)
  }

  lemma {:induction false} ProgressSplits(s: Store, rs: seq<Record>, k: nat, offline: bool, j: Judge)
    requires k <= |rs|
    ensures SaveAll(s, rs[..k], offline, j).1.Fine? <==> Progress(s, rs, offline, j) >= k
    ensures Progress(s, rs, offline, j) >= k ==>
              Progress(s, rs, offline, j) == k + Progress(SaveAll(s, rs[..k], offline, j).0, rs[k..], offline, j)
    decreases |rs|
  {
    if k == 0 {
      assert rs[..0] == [] && rs[0..] == rs;
    } else {
      assert rs[..k][0] == rs[0] && rs[..k][1..] == rs[1..][..k - 1] && rs[1..][k - 1..] == rs[k..];
      var one := SaveOne(s, rs[0], offline, j);
      if one.1.Fine? {
        ProgressSplits(one.0, rs[1..], k - 1, offline, j);
      }
    }
  }

  /** With distinct events, the record that stops the saving is the first at fault against the old store. */
  lemma {:induction false} ProgressIsFirstFault(
      s: Store, t: Store, rs: seq<Record>, agentId: string, offline: bool, j: Judge)
    requires DistinctIds(rs)
    requires forall r :: r in rs ==> SameVerdict(s, t, r) && Read(r, agentId, j).Fine?
    ensures Progress(t, rs, offline, j) == FirstFault(s, rs, agentId, j)
    decreases |rs|
  {
    if rs != [] {
      var one := SaveOne(t, rs[0], offline, j);
      assert rs[0] in rs && one.1 == Fault(s, rs[0], agentId, j);
      if one.1.Fine? {
        forall r | r in rs[1..] ensures SameVerdict(s, one.0, r) {
          assert r in rs && r.eventId != rs[0].eventId;
        }
        ProgressIsFirstFault(s, one.0, rs[1..], agentId, offline, j);
      }
    }
  }

  /** A batch that fails while storing leaves exactly the chunks before the one with the failing record. */
  lemma {:induction false} FailedBatchLeavesWholeChunks(s: Store, rs: seq<Record>, size: nat, offline: bool, j: Judge)
    requires size > 0 && !CommitAll(s, rs, size, offline, j).1.Fine?
    ensures Progress(s, rs, offline, j) < |rs|
    ensures SaveAll(s, rs[..BeforeChunkOf(Progress(s, rs, offline, j), size)], offline, j)
         == (CommitAll(s, rs, size, offline, j).0, Fine)
    decreases |rs|
  {
    hide SaveAll, BeforeChunkOf, Progress;
    var f := Progress(s, rs, offline, j);
    var chunk := if |rs| <= size then rs else rs[..size];
    ProgressSplits(s, rs, |chunk|, offline, j);
    assert chunk == rs[..|chunk|];
    if Commit(s, chunk, offline, j).1.Fine? {
      var first := Commit(s, chunk, offline, j);
      FailedBatchLeavesWholeChunks(first.0, rs[size..], size, offline, j);
      OneChunkFurther(f, size);
      WholeChunksAdd(s, rs, size, BeforeChunkOf(f - size, size), CommitAll(s, rs, size, offline, j).0, offline, j);
    } else {
      NothingBefore(s, rs, f, size, offline, j);
    }
  }

  lemma {:induction false} CommittedBatchIsSaved(s: Store, rs: seq<Record>, size: nat, offline: bool, j: Judge)
    requires size > 0 && CommitAll(s, rs, size, offline, j).1.Fine?
    ensures Progress(s, rs, offline, j) == |rs| && SaveAll(s, rs, offline, j) == CommitAll(s, rs, size, offline, j)
    decreases |rs|
  {
    hide SaveAll, Progress;
    var chunk := if |rs| <= size then rs else rs[..size];
    ProgressSplits(s, rs, |chunk|, offline, j);
    assert chunk == rs[..|chunk|];
    if |rs| > size {
      var first := Commit(s, chunk, offline, j);
      CommittedBatchIsSaved(first.0, rs[size..], size, offline, j);
      assert rs == rs[..size] + rs[size..];
      SaveAllSplits(s, rs[..size], rs[size..], offline, j);
    }
  }

  lemma NothingBefore(s: Store, rs: seq<Record>, f: nat, size: nat, offline: bool, j: Judge)
    requires f < size
    ensures BeforeChunkOf(f, size) == 0 && SaveAll(s, rs[..0], offline, j) == (s, Fine)
  {
    WholePart(f, size);
    if f / size > 0 { LargerByOne(0, f / size, size); }
  }

  lemma WholeChunksAdd(s: Store, rs: seq<Record>, size: nat, n: nat, after: Store, offline: bool, j: Judge)
    requires 0 < size < |rs| && n < |rs| - size
    requires SaveAll(s, rs[..size], offline, j).1.Fine?
    requires SaveAll(SaveAll(s, rs[..size], offline, j).0, rs[size..][..n], offline, j) == (after, Fine)
    ensures SaveAll(s, rs[..size + n], offline, j) == (after, Fine)
  {
    hide SaveAll;
    assert rs[..size] + rs[size..][..n] == rs[..size + n];
    SaveAllSplits(s, rs[..size], rs[size..][..n], offline, j);
  }

  ghost predicate AllKnown(s: Store, rs: seq<Record>) {
    forall i :: 0 <= i < |rs| ==> rs[i].eventId in s.events
  }

  /** Saving changes nothing exactly when every record's event was stored before. */
  lemma {:induction false} SaveAllChangesNothingIff(s: Store, rs: seq<Record>, offline: bool, j: Judge)
    requires ImportedOnce(s) && SaveAll(s, rs, offline, j).1.Fine?
    ensures SaveAll(s, rs, offline, j).0 == s <==> AllKnown(s, rs)
    decreases |rs|
  {
    SaveAllKeeps(s, rs, offline, j);
    if AllKnown(s, rs) {
      if rs != [] {
        SaveAllChangesNothingIff(s, rs[1..], offline, j);
      }
    } else {
      var i :| 0 <= i < |rs| && rs[i].eventId !in s.events;
      assert rs[i] in rs && Agrees(SaveAll(s, rs, offline, j).0, rs[i]);
    }
  }

  /** The request got as far as storing: it is not too long, not known by a receipt, and readable. */
  predicate ReachesStoring(s: Store, p: Payload, j: Judge) {
    && |p.records| <= MAX_RECORDS && KeyOf(p) !in s.receipts
    && ReadAll(p.records, Sender(p), j).Fine?
  }

  /** A batch that is not accepted leaves exactly the chunks before the one with the failing record stored, or all of
      them when it is the rest of the envelope that fails. It is without effect, as an atomic batch would be, if and
      only if it was refused before anything was stored, or every event in those chunks was stored before. */
  lemma RefusedBatchIsAtomicExactly(s: Store, p: Payload, offline: bool, configured: int, closing: Outcome, j: Judge)
    requires Sound(s, j) && !Ingested(s, p, offline, configured, closing, j).1.Accepted?
    ensures !ReachesStoring(s, p, j) ==> Ingested(s, p, offline, configured, closing, j).0 == s
    ensures ReachesStoring(s, p, j) ==>
              var f := Progress(s, p.records, IsOffline(p, offline), j);
              var n := if f < |p.records| then BeforeChunkOf(f, ChunkSize(configured)) else f;
              && (f == |p.records| ==> !closing.Fine?)
              && (DistinctIds(p.records) ==> f == FirstFault(s, p.records, Sender(p), j))
              && SaveAll(s, p.records[..n], IsOffline(p, offline), j)
                 == (Ingested(s, p, offline, configured, closing, j).0, Fine)
              && (Ingested(s, p, offline, configured, closing, j).0 == s <==> AllKnown(s, p.records[..n]))
  {
    hide CommitAll, SaveAll, BeforeChunkOf, Fault, ReadAll, AllKnown, ImportedOnce;
    if ReachesStoring(s, p, j) {
      var rs, size, source := p.records, ChunkSize(configured), IsOffline(p, offline);
      var f := Progress(s, rs, source, j);
      ReadAllIs(rs, Sender(p), j);
      if DistinctIds(rs) { ProgressIsFirstFault(s, s, rs, Sender(p), source, j); }
      if CommitAll(s, rs, size, source, j).1.Fine? {
        CommittedBatchIsSaved(s, rs, size, source, j);
        assert rs[..f] == rs;
        SaveAllChangesNothingIff(s, rs, source, j);
      } else {
        FailedBatchLeavesWholeChunks(s, rs, size, source, j);
        SaveAllChangesNothingIff(s, rs[..BeforeChunkOf(f, size)], source, j);
      }
    }
  }

  lemma {:induction false} SaveAllSplits(s: Store, rs: seq<Record>, more: seq<Record>, offline: bool, j: Judge)
    requires SaveAll(s, rs, offline, j).1.Fine?
    ensures SaveAll(s, rs + more, offline, j) == SaveAll(SaveAll(s, rs, offline, j).0, more, offline, j)
    decreases |rs|
  {
    if rs == [] {
      assert rs + more == more;
    } else {
      assert (rs + more)[1..] == rs[1..] + more;
      SaveAllSplits(SaveOne(s, rs[0], offline, j).0, rs[1..], more, offline, j);
    }
  }

  /** So a refused batch is not without effect: its first chunk may be stored. */
  lemma RefusedBatchMayBeHalfStored(good: Record, bad: Record, j: Judge)
    requires good.eventId != bad.eventId && good.agentId == bad.agentId && good.source.None? && bad.source.None?
    requires j.decoding(good).Fine? && j.decoding(bad).Fine? && good.evidence.None?
    requires bad.evidence.Some? && j.importing(bad).Refused?
    ensures var after := Ingested(Store(map[], [], map[]), Envelope(good.agentId, None, [good, bad]), true, 1, Fine, j);
      after.1.Rejected? && Agrees(after.0, good) && !Agrees(after.0, bad)
  {
    var s := Store(map[], [], map[]);
    var stored := s.(events := map[good.eventId := Entry(good, true)]);
    var rs := [good, bad];
    assert rs[1..] == [bad] && rs[..1] == [good] && [good][1..] == [] && [bad][1..] == [];
    StoredFirst(good, j);
    assert SaveAll(stored, [], true, j) == (stored, Fine);
    assert Commit(s, [good], true, j) == (stored, Fine);
    assert SaveAll(stored, [bad], true, j) == (stored, Refused);
    assert CommitAll(stored, [bad], 1, true, j) == (stored, Refused);
    assert ReadAll([bad], good.agentId, j).Fine?;
  }
}
