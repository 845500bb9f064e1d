/**
The manager's command table: dispatch by heartbeat, expiry by the background sweep, and results
reported by agents, with the result rows they leave.
*/
module CommandTable {
  import opened Options
  import OfflineEvidence

  datatype End = Success | Failed | UnknownEnd | Rejected

  /** `OfflineInterrupted` is saved with offline evidence only. */
  datatype Status =
    Pending | Queued | Authorized | Dispatched | Executing | Expired | OfflineInterrupted | Terminal(end: End)

  /** A verification as reported. A scalar is a number or a Boolean, given by the text Python makes of it: `True`,
      not `true`. Unbindable is what a column cannot take: an object, a list, or an integer of more than 64 bits. */
  datatype Verification = NoVerification | Plain(text: string) | Scalar(shown: string) | Unbindable(json: string)

  /** What a report claims: the start of execution, an end, or a status the manager does not know. */
  datatype Claim = Begun | Ended(end: End) | Nonsense

  /** Either chosen by the agent or derived from the report by an injective hash. */
  datatype ResultId =
    | Chosen(text: string)
    | Hashed(commandId: string, agent: string, claim: Claim, verification: Verification, error: Option<string>,
             completedAt: Option<string>)

  /** `wellFormed`: identifiers and texts have the demanded types and lengths. `executedAt` is None where
      the time is missing, unreadable or without a zone. */
  datatype Report = Report(
    wellFormed: bool, commandId: string, agent: string, claim: Claim, verification: Verification,
    error: Option<string>, executedAt: Option<int>, completedAt: Option<string>, resultId: Option<ResultId>,
    rest: string)

  /** `lapsed` remembers that the sweep once expired the command. */
  datatype Command = Command(
    agent: string, action: string, status: Status, expiresAt: Option<int>, verification: Option<string>,
    error: Option<string>, resultId: Option<ResultId>, lapsed: bool)

  datatype Result = Result(commandId: string, end: End, evidence: Report)

  datatype Tables = Tables(commands: map<string, Command>, results: map<ResultId, Result>)

  /** `Unanswered`: an exception the server turns into no answer; its transaction is rolled back. */
  datatype Reply = Recorded | Already | Refused | Unanswered

  predicate Acknowledges(reply: Reply) { reply.Recorded? || reply.Already? }

  const EXPIRY_ERROR := "Command expired before confirmed completion"

  function RequiredVerifications(action: string): Option<set<string>> {
    if action == "KILL_PROCESS" then Some({"PROCESS_NOT_ACTIVE"})
    else if action in {"LOGOUT_USER", "LOGOFF_USER"} then Some({"SESSION_NOT_ACTIVE"})
    else if action in {"ISOLATE_ENDPOINT", "DISABLE_NETWORK"} then Some({"ISOLATION_VERIFIED"})
    else if action == "UNISOLATE_ENDPOINT" then Some({"UNISOLATION_VERIFIED"})
    else if action == "QUARANTINE_FILE" then Some({"FILE_QUARANTINED"})
    else if action == "LOCK_LOCAL_ACCOUNT" then Some({"LOCAL_ACCOUNT_DISABLED"})
    else if action == "UNLOCK_LOCAL_ACCOUNT" then Some({"LOCAL_ACCOUNT_ENABLED", "LOCAL_ACCOUNT_RESTORED_DISABLED"})
    else None
  }

  /** A success may be recorded only with its action's verification; a workstation lock never may. */
  predicate Verified(action: string, v: Verification) {
    && action != "LOCK_WORKSTATION"
    && (RequiredVerifications(action).Some? ==> v.Plain? && v.text in RequiredVerifications(action).value)
  }

  function Stored(v: Verification): Option<string> {
    match v
    case NoVerification => None
    case Plain(t) => Some(t)
    case Scalar(t) => Some(t)
    case Unbindable(j) => Some(j)
  }

  /** The comparison of a stored text with a reported value; a value that is no text is never equal to one. */
  predicate SameAsStored(stored: Option<string>, v: Verification) {
    (v.NoVerification? || v.Plain?) && stored == Stored(v)
  }

  function IdOf(r: Report): ResultId {
    if r.resultId.Some? then r.resultId.value
    else Hashed(r.commandId, r.agent, r.claim, r.verification, r.error, r.completedAt)
  }

  predicate StartedInTime(r: Report, expiresAt: Option<int>) {
    r.executedAt.Some? && expiresAt.Some? && r.executedAt.value <= expiresAt.value
  }

  /** A report that reaches no branch that writes, and why it is not refused. */
  predicate Acceptable(t: Tables, r: Report) {
    && r.wellFormed && !r.claim.Nonsense?
    && r.commandId in t.commands && t.commands[r.commandId].agent == r.agent
    && (r.claim == Ended(Success) ==> Verified(t.commands[r.commandId].action, r.verification))
  }

  /** A result that is already there must be repeated exactly. */
  predicate Repeats(t: Tables, c: Command, r: Report) {
    && c.status.Terminal? && r.claim == Ended(c.status.end)
    && SameAsStored(c.verification, r.verification) && c.error == r.error
    && (IdOf(r) in t.results && t.results[IdOf(r)].commandId == r.commandId ==> t.results[IdOf(r)].evidence == r)
    && (c.resultId.Some? ==> c.resultId.value == IdOf(r))
  }

  predicate LateButAllowed(c: Command, r: Report) {
    match r.claim
    case Ended(Success) => StartedInTime(r, c.expiresAt)
    case Ended(Failed) => StartedInTime(r, c.expiresAt)
    case Ended(_) => true
    case _ => false
  }

  /** `command_result`. */
  function Receive(t: Tables, r: Report): (Reply, Tables) {
    if !Acceptable(t, r) then (Refused, t)
    else
      var c := t.commands[r.commandId];
      if c.status.Terminal? then (if Repeats(t, c, r) then Already else Refused, t)
      else if !(c.status.Dispatched? || c.status.Executing? || c.status.Expired?) then (Refused, t)
      else if c.status.Expired? && !LateButAllowed(c, r) then (Refused, t)
      else match r.claim
        case Begun =>
          if c.status.Executing? then (Already, t)
          else (Recorded, t.(commands := t.commands[r.commandId := c.(status := Executing)]))
        case Ended(end) =>
          if IdOf(r) in t.results && t.results[IdOf(r)].evidence != r then (Refused, t)
          else if r.verification.Unbindable? then (Unanswered, t)
          else (Recorded, Tables(
            t.commands[r.commandId := c.(status := Terminal(end), verification := Stored(r.verification),
                                         error := r.error, resultId := Some(IdOf(r)))],
            if IdOf(r) in t.results then t.results else t.results[IdOf(r) := Result(r.commandId, end, r)]))
        case Nonsense => (Refused, t)
  }

  predicate Dispatchable(c: Command, agent: string, now: int) {
    c.agent == agent && (c.status.Queued? || c.status.Authorized? || c.status.Dispatched?)
    && c.expiresAt.Some? && c.expiresAt.value > now
  }

  function DispatchAll(commands: map<string, Command>, agent: string, now: int): map<string, Command> {
    map id | id in commands ::
      if Dispatchable(commands[id], agent, now) then commands[id].(status := Dispatched) else commands[id]
  }

  predicate Expirable(c: Command, now: int) {
    && !c.status.Expired? && !c.status.OfflineInterrupted? && !c.status.Terminal?
    && (c.expiresAt.None? || c.expiresAt.value <= now)
  }

  function ExpireAll(commands: map<string, Command>, now: int): map<string, Command> {
    map id | id in commands ::
      if Expirable(commands[id], now) then commands[id].(status := Expired, error := Some(EXPIRY_ERROR), lapsed := true)
      else commands[id]
  }

  /** A command of offline evidence, as it is saved once its end was found importable. */
  datatype Offline = Offline(
    agent: string, action: string, status: string, expiresAt: Option<int>, verification: Option<string>,
    error: Option<string>)

  predicate Importable(o: Offline) {
    OfflineEvidence.Importable(o.action, o.status, if o.verification.Some? then o.verification.value else "")
  }

  /** There is no result for it: the row itself says how it ended. */
  function ImportedRow(o: Offline): Command {
    var status := if o.status == "SUCCESS" then Terminal(Success) else if o.status == "FAILED" then Terminal(Failed)
                  else OfflineInterrupted;
    Command(o.agent, o.action, status, o.expiresAt, o.verification, o.error, None, false)
  }

  // ---------------------------------------------------------------- the same in words

  /** The command waits for its agent to ask, and its time is not over. */
  ghost predicate AwaitsDelivery(c: Command, agent: string, now: int) {
    && c.agent == agent && c.status in [Queued, Authorized, Dispatched]
    && c.expiresAt.Some? && now < c.expiresAt.value
  }

  /** The command has not ended, and its time is over, or it never had any. */
  ghost predicate Overdue(c: Command, now: int) {
    && c.status in [Pending, Queued, Authorized, Dispatched, Executing]
    && (c.expiresAt.Some? ==> c.expiresAt.value <= now)
  }

  ghost function Lapsed(c: Command): Command {
    c.(status := Expired, error := Some("Command expired before confirmed completion"), lapsed := true)
  }

  /** What a success of each action must be verified by. */
  ghost predicate Evidenced(action: string, v: Verification) {
    && action != "LOCK_WORKSTATION"
    && (action == "KILL_PROCESS" ==> v == Plain("PROCESS_NOT_ACTIVE"))
    && (action in ["LOGOUT_USER", "LOGOFF_USER"] ==> v == Plain("SESSION_NOT_ACTIVE"))
    && (action in ["ISOLATE_ENDPOINT", "DISABLE_NETWORK"] ==> v == Plain("ISOLATION_VERIFIED"))
    && (action == "UNISOLATE_ENDPOINT" ==> v == Plain("UNISOLATION_VERIFIED"))
    && (action == "QUARANTINE_FILE" ==> v == Plain("FILE_QUARANTINED"))
    && (action == "LOCK_LOCAL_ACCOUNT" ==> v == Plain("LOCAL_ACCOUNT_DISABLED"))
    && (action == "UNLOCK_LOCAL_ACCOUNT" ==>
          v in [Plain("LOCAL_ACCOUNT_ENABLED"), Plain("LOCAL_ACCOUNT_RESTORED_DISABLED")])
  }

  /** A proper report of a known command's own agent. */
  ghost predicate Proper(t: Tables, r: Report) {
    && r.wellFormed && r.commandId in t.commands && t.commands[r.commandId].agent == r.agent
  }

  /** The report's end may be written: the command was dispatched, or expired although it was begun in time where the
      report claims that it was carried out; a success is verified; and its name is not that of another report. */
  ghost predicate MayEnd(t: Tables, r: Report) {
    && Proper(t, r) && r.claim.Ended?
    && var c := t.commands[r.commandId];
    && (r.claim.end.Success? ==> Evidenced(c.action, r.verification))
    && (c.status in [Dispatched, Executing]
        || (c.status == Expired
            && (r.claim.end in [Success, Failed] ==>
                  r.executedAt.Some? && c.expiresAt.Some? && r.executedAt.value <= c.expiresAt.value)))
    && (IdOf(r) in t.results ==> t.results[IdOf(r)].evidence == r)
  }

  lemma VerifiedIsEvidenced(action: string, v: Verification)
    ensures Verified(action, v) <==> Evidenced(action, v)
  {
  }

  class CommandStore {
    var commands: map<string, Command>
    var results: map<ResultId, Result>

    constructor ()
      ensures State() == Tables(map[], map[])
    { commands, results := map[], map[]; }

    ghost function State(): Tables
      reads this
    { Tables(commands, results) }

    /** The heartbeat's loop over the agent's waiting commands: exactly those are returned, and are dispatched. */
    method Heartbeat(agent: string, now: int) returns (pending: set<string>)
      modifies this`commands
      ensures commands == DispatchAll(old(commands), agent, now)
      ensures forall id :: id in pending <==> id in old(commands) && AwaitsDelivery(old(commands)[id], agent, now)
      ensures commands.Keys == old(commands).Keys
      ensures forall id :: id in commands ==>
                commands[id] == (if id in pending then old(commands)[id].(status := Dispatched) else old(commands)[id])
    {
      var rows := set id | id in commands && Dispatchable(commands[id], agent, now);
      pending := {};
      while rows != {}
        invariant rows !! pending && commands.Keys == old(commands).Keys
        invariant rows + pending == set id | id in old(commands) && Dispatchable(old(commands)[id], agent, now)
        invariant forall id :: id in commands ==>
                    commands[id] == (if id in pending then old(commands)[id].(status := Dispatched)
                                     else old(commands)[id])
        decreases rows
      {
        var id :| id in rows;
        rows := rows - {id};
        if !commands[id].status.Dispatched? {
          commands := commands[id := commands[id].(status := Dispatched)];
        }
        pending := pending + {id};
      }
      assert pending == set id | id in old(commands) && Dispatchable(old(commands)[id], agent, now);
    }

    /** The background sweep over commands past their lifetime. */
    method ExpireCommands(now: int)
      modifies this`commands
      ensures commands == ExpireAll(old(commands), now)
      ensures commands.Keys == old(commands).Keys
      ensures forall id :: id in commands ==>
                commands[id] == (if Overdue(old(commands)[id], now) then Lapsed(old(commands)[id])
                                 else old(commands)[id])
    {
      var rows := set id | id in commands && Expirable(commands[id], now);
      ghost var swept := {};
      while rows != {}
        invariant rows !! swept && commands.Keys == old(commands).Keys
        invariant rows + swept == set id | id in old(commands) && Expirable(old(commands)[id], now)
        invariant forall id :: id in commands ==>
                    commands[id] == (if id in swept
                                     then old(commands)[id].(status := Expired, error := Some(EXPIRY_ERROR),
                                                             lapsed := true)
                                     else old(commands)[id])
        decreases rows
      {
        var id :| id in rows;
        rows := rows - {id};
        commands := commands[id := commands[id].(status := Expired, error := Some(EXPIRY_ERROR), lapsed := true)];
        swept := swept + {id};
      }
      assert swept == set id | id in old(commands) && Expirable(old(commands)[id], now);
    }

    method CommandResult(r: Report) returns (reply: Reply)
      modifies this
      ensures (reply, State()) == Receive(old(State()), r)
    {
      if !r.wellFormed || r.claim.Nonsense? { return Refused; }
      if r.commandId !in commands || commands[r.commandId].agent != r.agent { return Refused; }
      var c := commands[r.commandId];
      if r.claim == Ended(Success) && !Verified(c.action, r.verification) { return Refused; }
      var id := IdOf(r);
      if c.status.Terminal? {
        if r.claim != Ended(c.status.end) || !SameAsStored(c.verification, r.verification) || c.error != r.error {
          return Refused;
        }
        if id in results && results[id].commandId == r.commandId && results[id].evidence != r { return Refused; }
        if c.resultId.Some? && c.resultId.value != id { return Refused; }
        return Already;
      }
      if !(c.status.Dispatched? || c.status.Executing? || c.status.Expired?) { return Refused; }
      if c.status.Expired? && !LateButAllowed(c, r) { return Refused; }
      if r.claim.Begun? {
        if c.status.Executing? { return Already; }
        commands := commands[r.commandId := c.(status := Executing)];
        return Recorded;
      }
      var savedCommands := commands;
      commands := commands[r.commandId := c.(status := Terminal(r.claim.end), verification := Stored(r.verification),
                                             error := r.error, resultId := Some(id))];
      if id in results && results[id].evidence != r {
        commands := savedCommands;
        return Refused;
      }
      if r.verification.Unbindable? {
        commands := savedCommands;
        return Unanswered;
      }
      if id !in results {
        results := results[id := Result(r.commandId, r.claim.end, r)];
      }
      return Recorded;
    }

    /** Saving a command replaces any row of its identifier. */
    method ImportCommand(id: string, o: Offline) returns (saved: bool)
      modifies this`commands
      ensures saved <==>
                && o.status in ["SUCCESS", "FAILED", "INTERRUPTED"]
                && (o.status == "SUCCESS" && o.action in ["LOGOUT_USER", "LOGOFF_USER"] ==>
                      o.verification == Some("SESSION_NOT_ACTIVE"))
                && (o.status == "SUCCESS" && o.action in ["ISOLATE_ENDPOINT", "DISABLE_NETWORK"] ==>
                      o.verification == Some("ISOLATION_VERIFIED"))
      ensures !saved ==> commands == old(commands)
      ensures saved ==> id in commands && commands == old(commands)[id := commands[id]]
      ensures saved ==> commands[id] == ImportedRow(o)
      ensures saved ==>
                var c := commands[id];
                && c.agent == o.agent && c.action == o.action && c.expiresAt == o.expiresAt
                && c.verification == o.verification && c.error == o.error && c.resultId == None && !c.lapsed
                && (c.status == Terminal(Success) <==> o.status == "SUCCESS")
                && (c.status == Terminal(Failed) <==> o.status == "FAILED")
                && (c.status == OfflineInterrupted <==> o.status == "INTERRUPTED")
    {
      saved := Importable(o);
      if saved { commands := commands[id := ImportedRow(o)]; }
    }
  }

  // ---------------------------------------------------------------- runs

  datatype Event =
    | Issue(id: string, agent: string, action: string, expiresAt: Option<int>)
    | Beat(agent: string, now: int)
    | Sweep(now: int)
    | Arrival(report: Report)
    | Import(id: string, command: Offline)

  /** Saving a command replaces any row of the same identifier. */
  function Perform(t: Tables, e: Event): Tables {
    match e
    case Issue(id, agent, action, expiresAt) =>
      t.(commands := t.commands[id := Command(agent, action, Queued, expiresAt, None, None, None, false)])
    case Beat(agent, now) => t.(commands := DispatchAll(t.commands, agent, now))
    case Sweep(now) => t.(commands := ExpireAll(t.commands, now))
    case Arrival(report) => Receive(t, report).1
    case Import(id, o) => if Importable(o) then t.(commands := t.commands[id := ImportedRow(o)]) else t
  }

  function Run(events: seq<Event>): Tables {
    if events == [] then Tables(map[], map[])
    else Perform(Run(events[..|events| - 1]), events[|events| - 1])
  }

  ghost function Rank(s: Status): nat {
    match s
    case Pending => 0
    case Queued => 0
    case Authorized => 0
    case Dispatched => 1
    case Executing => 2
    case Expired => 3
    case OfflineInterrupted => 4
    case Terminal(_) => 4
  }

  /** The event saves a command under an identifier that is taken. */
  predicate Reissues(t: Tables, e: Event) {
    (e.Issue? || (e.Import? && Importable(e.command))) && e.id in t.commands
  }

  ghost predicate IssuedOnce(events: seq<Event>) {
    events == [] ||
    (IssuedOnce(events[..|events| - 1]) && !Reissues(Run(events[..|events| - 1]), events[|events| - 1]))
  }

  /** A command in its last state: reported, or imported with its end. */
  predicate Final(c: Command) { c.status.Terminal? || c.status.OfflineInterrupted? }

  /** The step saves a row below, or other than the last one of, a command that has moved on. */
  ghost predicate TakesBack(t: Tables, e: Event) {
    && Reissues(t, e)
    && (if e.Issue? then Rank(t.commands[e.id].status) > 0
        else Final(t.commands[e.id]) && t.commands[e.id] != ImportedRow(e.command))
  }

  /** No step takes a command back, and a final row never changes again, exactly as long as the step does not
      save over a command that has moved on. */
  lemma RankNeverFalls(t: Tables, e: Event)
    ensures (forall id :: id in t.commands ==>
               && id in Perform(t, e).commands
               && Rank(Perform(t, e).commands[id].status) >= Rank(t.commands[id].status)
               && (Final(t.commands[id]) ==> Perform(t, e).commands[id] == t.commands[id]))
       <==> !TakesBack(t, e)
  {
    hide Repeats, IdOf, Acceptable, StartedInTime, Stored, Importable;
    match e
    case Arrival(r) => ReceiveNeverFalls(t, r);
    case Issue(id, agent, action, expiresAt) =>
      assert TakesBack(t, e) ==> Rank(Perform(t, e).commands[id].status) < Rank(t.commands[id].status);
    case Import(id, o) =>
      assert TakesBack(t, e) ==> Final(t.commands[id]) && Perform(t, e).commands[id] != t.commands[id];
    case Beat(_, _) =>
    case Sweep(_) =>
  }

  lemma ReceiveNeverFalls(t: Tables, r: Report)
    ensures var after := Receive(t, r).1;
      forall id :: id in t.commands ==>
        && id in after.commands && Rank(after.commands[id].status) >= Rank(t.commands[id].status)
        && (Final(t.commands[id]) ==> after.commands[id] == t.commands[id])
  {
    hide Repeats, IdOf, Verified, StartedInTime, Stored;
  }

  /** The one result row of a terminal command. */
  ghost predicate Closed(t: Tables, id: string) {
    && id in t.commands && t.commands[id].status.Terminal?
    && var c := t.commands[id];
    && c.resultId.Some? && c.resultId.value in t.results
    && var row := t.results[c.resultId.value];
    && row.commandId == id && row.end == c.status.end
    && row.evidence.claim == Ended(row.end) && row.evidence.commandId == id && row.evidence.agent == c.agent
    && c.verification == Stored(row.evidence.verification) && c.error == row.evidence.error
    && IdOf(row.evidence) == c.resultId.value
    && (c.status.end.Success? ==> Verified(c.action, row.evidence.verification))
    && (c.lapsed && (c.status.end.Success? || c.status.end.Failed?) ==> StartedInTime(row.evidence, c.expiresAt))
  }

  /** A terminal command that came with offline evidence: it has no result row. Only a logout or an isolation
      carries its required verification for certain. */
  ghost predicate Imported(t: Tables, id: string) {
    && id in t.commands && t.commands[id].status.Terminal?
    && var c := t.commands[id];
    && c.resultId.None? && !c.lapsed && (c.status.end.Success? || c.status.end.Failed?)
    && (c.status.end.Success? && c.action in ["LOGOUT_USER", "LOGOFF_USER"] ==>
          c.verification == Some("SESSION_NOT_ACTIVE"))
    && (c.status.end.Success? && c.action in ["ISOLATE_ENDPOINT", "DISABLE_NETWORK"] ==>
          c.verification == Some("ISOLATION_VERIFIED"))
  }

  ghost predicate Sound(t: Tables) {
    && (forall id :: id in t.commands && t.commands[id].status.Terminal? ==> Closed(t, id) || Imported(t, id))
    && (forall id :: id in t.commands && t.commands[id].status.Expired? ==> t.commands[id].lapsed)
    && (forall id :: id in t.commands && !t.commands[id].status.Terminal? && t.commands[id].lapsed ==>
          t.commands[id].status.Expired?)
    && (forall r :: r in t.results ==>
          var id := t.results[r].commandId;
          id in t.commands && t.commands[id].status.Terminal? && t.commands[id].resultId == Some(r))
  }

  lemma ResultsAreOfClosed(t: Tables)
    requires Sound(t)
    ensures forall k :: k in t.results ==> Closed(t, t.results[k].commandId)
  {
  }

  /** A report closes a command once: its evidence is the command's new result row. */
  lemma ClosingIsRecorded(t: Tables, r: Report)
    requires Sound(t) && r.claim.Ended? && Receive(t, r).0.Recorded?
    ensures Closed(Receive(t, r).1, r.commandId)
    ensures IdOf(r) !in t.results
  {
    ResultsAreOfClosed(t);
  }

  /** What a recorded result changes, and what a recorded start changes. */
  lemma ReceiveChanges(t: Tables, r: Report)
    ensures var after := Receive(t, r).1;
      || after == t
      || (r.claim.Begun? && r.commandId in t.commands && after.results == t.results
          && !t.commands[r.commandId].status.Terminal? && !t.commands[r.commandId].status.Expired?
          && after.commands == t.commands[r.commandId := t.commands[r.commandId].(status := Executing)])
      || (r.claim.Ended? && Receive(t, r).0.Recorded? && r.commandId in t.commands
          && !t.commands[r.commandId].status.Terminal?)
  {
    hide Acceptable, Repeats, IdOf, Stored, StartedInTime;
    assert Acceptable(t, r) ==> r.commandId in t.commands && !r.claim.Nonsense? by { AcceptableIsKnown(t, r); }
  }

  lemma AcceptableIsKnown(t: Tables, r: Report)
    ensures Acceptable(t, r) ==> r.commandId in t.commands && !r.claim.Nonsense?
  {
  }

  lemma ReceiveIsSound(t: Tables, r: Report)
    requires Sound(t)
    ensures Sound(Receive(t, r).1)
  {
    var after := Receive(t, r).1;
    ReceiveChanges(t, r);
    if after != t {
      if r.claim.Ended? {
        ClosingIsRecorded(t, r);
        ClosingIsSound(t, r);
      } else {
        hide Receive;
        NothingCloses(t, after);
      }
    }
  }

  lemma ClosingIsSound(t: Tables, r: Report)
    requires Sound(t) && r.claim.Ended? && Receive(t, r).0.Recorded?
    requires Closed(Receive(t, r).1, r.commandId) && IdOf(r) !in t.results
    ensures Sound(Receive(t, r).1)
  {
    var after := Receive(t, r).1;
    ClosingChanges(t, r);
    ResultsAreOfClosed(t);
    hide Receive, Closed, Imported, IdOf;
    forall id | id in after.commands && after.commands[id].status.Terminal? && id != r.commandId
      ensures Closed(after, id) || Imported(after, id)
    {
      assert Closed(t, id) || Imported(t, id);
      FinalStays(t, after, id);
    }
    ClosedPointsAtItsRow(after, r.commandId);
    assert forall k :: k in t.results ==> t.results[k].commandId != r.commandId by { OpenHasNoRow(t, r.commandId); }
  }

  lemma ClosingChanges(t: Tables, r: Report)
    requires r.claim.Ended? && Receive(t, r).0.Recorded? && IdOf(r) !in t.results
    ensures var after := Receive(t, r).1;
      && r.commandId in t.commands && !Final(t.commands[r.commandId]) && after.commands.Keys == t.commands.Keys
      && (forall id :: id in t.commands && id != r.commandId ==> after.commands[id] == t.commands[id])
      && after.results == t.results[IdOf(r) := Result(r.commandId, r.claim.end, r)]
      && after.commands[r.commandId].status.Terminal? && after.commands[r.commandId].resultId == Some(IdOf(r))
  {
    hide LateButAllowed, Repeats, IdOf, Verified, StartedInTime;
  }

  lemma FinalStays(t: Tables, after: Tables, id: string)
    requires id in t.commands && id in after.commands && after.commands[id] == t.commands[id]
    requires forall k :: k in t.results ==> k in after.results && after.results[k] == t.results[k]
    ensures Closed(t, id) ==> Closed(after, id)
    ensures Imported(t, id) ==> Imported(after, id)
  {
  }

  lemma ClosedPointsAtItsRow(t: Tables, id: string)
    requires Closed(t, id)
    ensures id in t.commands && t.commands[id].resultId.Some? && t.commands[id].resultId.value in t.results
    ensures t.results[t.commands[id].resultId.value].commandId == id
  {
  }

  lemma OpenHasNoRow(t: Tables, id: string)
    requires Sound(t) && id in t.commands && !Final(t.commands[id])
    ensures forall k :: k in t.results ==> t.results[k].commandId != id
  {
  }

  /** Steps that close no command and touch no closed one. */
  lemma NothingCloses(t: Tables, after: Tables)
    requires Sound(t) && after.results == t.results
    requires forall id :: id in t.commands && t.commands[id].status.Terminal? ==>
               id in after.commands && after.commands[id] == t.commands[id]
    requires forall id :: id in after.commands && after.commands[id].status.Terminal? ==>
               (id in t.commands && after.commands[id] == t.commands[id]) || Imported(after, id)
    requires forall id :: id in after.commands && !after.commands[id].status.Terminal? ==>
               (after.commands[id].lapsed <==> after.commands[id].status.Expired?)
    ensures Sound(after)
  {
    hide Verified, StartedInTime, IdOf;
    forall id | id in after.commands && after.commands[id].status.Terminal? && !Imported(after, id)
      ensures Closed(after, id)
    {
      assert Closed(t, id) || Imported(t, id);
    }
  }

  lemma StepIsSound(t: Tables, e: Event)
    requires Sound(t) && !Reissues(t, e)
    ensures Sound(Perform(t, e))
  {
    hide Closed, Imported, Receive;
    match e
    case Arrival(report) => ReceiveIsSound(t, report);
    case Import(id, o) =>
      if Importable(o) {
        if ImportedRow(o).status.Terminal? { ImportedIsImported(t, id, o); }
        NothingCloses(t, Perform(t, e));
      }
    case _ => NothingCloses(t, Perform(t, e));
  }

  lemma ImportedIsImported(t: Tables, id: string, o: Offline)
    requires Importable(o) && ImportedRow(o).status.Terminal?
    ensures Imported(t.(commands := t.commands[id := ImportedRow(o)]), id)
  {
  }

  /** Over every run in which each identifier is saved once: every terminal command was imported with offline
      evidence, or has one result row that says what the command says; then a success carries its required
      verification, and a success or failure taken after expiry began before it. */
  lemma {:induction false} CommandsCloseSoundly(events: seq<Event>)
    requires IssuedOnce(events)
    ensures Sound(Run(events))
  {
    if events != [] {
      CommandsCloseSoundly(events[..|events| - 1]);
      StepIsSound(Run(events[..|events| - 1]), events[|events| - 1]);
    }
  }

  /** The identifier was saved with offline evidence. */
  ghost predicate ImportedIn(events: seq<Event>, id: string) {
    exists i :: 0 <= i < |events| && events[i].Import? && events[i].id == id && Importable(events[i].command)
  }

  lemma ImportedInStep(events: seq<Event>, id: string)
    requires events != []
    ensures var last := events[|events| - 1];
      ImportedIn(events, id) <==>
        ImportedIn(events[..|events| - 1], id) || (last.Import? && last.id == id && Importable(last.command))
  {
    var before := events[..|events| - 1];
    if i :| 0 <= i < |before| && before[i].Import? && before[i].id == id && Importable(before[i].command) {
      assert events[i] == before[i];
    }
    if i :| 0 <= i < |events| && events[i].Import? && events[i].id == id && Importable(events[i].command) {
      assert i < |before| ==> before[i] == events[i];
    }
  }

  /** Final without a result. */
  ghost predicate Unreported(t: Tables, id: string) {
    id in t.commands && Final(t.commands[id]) && t.commands[id].resultId.None?
  }

  /** An import adds its own command to those, no other step adds one, and none is lost. */
  lemma UnreportedAreImported(t: Tables, e: Event, id: string)
    requires !Reissues(t, e)
    ensures Unreported(Perform(t, e), id) <==>
              Unreported(t, id) || (e.Import? && e.id == id && Importable(e.command))
  {
    hide LateButAllowed, Repeats, IdOf, Verified, StartedInTime, Stored, Acceptable;
  }

  lemma {:induction false} UnreportedExactly(events: seq<Event>, id: string)
    requires IssuedOnce(events)
    ensures Unreported(Run(events), id) <==> ImportedIn(events, id)
  {
    hide Perform, Reissues, Unreported, ImportedIn;
    if events == [] {
      NothingImported(id);
    } else {
      UnreportedExactly(events[..|events| - 1], id);
      UnreportedAreImported(Run(events[..|events| - 1]), events[|events| - 1], id);
      ImportedInStep(events, id);
    }
  }

  lemma NothingImported(id: string)
    ensures !Unreported(Run([]), id) && !ImportedIn([], id)
  {
  }

  /** Over every such run a terminal command has a result row if and only if it was not imported. */
  lemma ResultRowsExactly(events: seq<Event>, id: string)
    requires IssuedOnce(events) && id in Run(events).commands && Run(events).commands[id].status.Terminal?
    ensures (exists k :: k in Run(events).results && Run(events).results[k].commandId == id)
       <==> !ImportedIn(events, id)
    ensures Imported(Run(events), id) <==> ImportedIn(events, id)
    ensures Closed(Run(events), id) <==> !ImportedIn(events, id)
  {
    hide Run, IssuedOnce, ImportedIn;
    CommandsCloseSoundly(events);
    UnreportedExactly(events, id);
    var t := Run(events);
    ResultsAreOfClosed(t);
    assert Closed(t, id) || Imported(t, id);
    if Closed(t, id) {
      assert t.commands[id].resultId.value in t.results;
    }
  }

  /** Two result rows never belong to one command. */
  lemma OneResultRow(events: seq<Event>, r: ResultId, s: ResultId)
    requires IssuedOnce(events) && r in Run(events).results && s in Run(events).results
    requires Run(events).results[r].commandId == Run(events).results[s].commandId
    ensures r == s
  {
    CommandsCloseSoundly(events);
  }

  function RunFrom(t: Tables, events: seq<Event>): Tables {
    if events == [] then t else Perform(RunFrom(t, events[..|events| - 1]), events[|events| - 1])
  }

  lemma {:induction false} RunIsFromTheEmptyTables(events: seq<Event>)
    ensures Run(events) == RunFrom(Tables(map[], map[]), events)
  {
    hide Perform;
    if events != [] { RunIsFromTheEmptyTables(events[..|events| - 1]); }
  }

  ghost predicate NoReissue(t: Tables, events: seq<Event>) {
    events == [] ||
    (NoReissue(t, events[..|events| - 1]) && !Reissues(RunFrom(t, events[..|events| - 1]), events[|events| - 1]))
  }

  lemma TerminalStays(t: Tables, id: string, e: Event)
    requires Sound(t) && !Reissues(t, e) && Closed(t, id)
    ensures var after := Perform(t, e);
      && Sound(after) && Closed(after, id) && after.commands[id] == t.commands[id]
      && after.results[t.commands[id].resultId.value] == t.results[t.commands[id].resultId.value]
  {
    hide Perform;
    StepIsSound(t, e);
    RankNeverFalls(t, e);
    ResultsStay(t, e);
  }

  lemma ResultsStay(t: Tables, e: Event)
    ensures forall k :: k in t.results ==> k in Perform(t, e).results && Perform(t, e).results[k] == t.results[k]
  {
  }

  lemma {:induction false} TerminalIsAbsorbing(t: Tables, id: string, events: seq<Event>)
    requires Sound(t) && NoReissue(t, events) && Closed(t, id)
    ensures var after := RunFrom(t, events);
      && Sound(after) && Closed(after, id) && after.commands[id] == t.commands[id]
      && after.results[t.commands[id].resultId.value] == t.results[t.commands[id].resultId.value]
  {
    hide Perform, Sound;
    if events != [] {
      TerminalIsAbsorbing(t, id, events[..|events| - 1]);
      TerminalStays(RunFrom(t, events[..|events| - 1]), id, events[|events| - 1]);
    }
  }

  /** An imported command, too, stays as it is. */
  lemma {:induction false} ImportedIsAbsorbing(t: Tables, id: string, events: seq<Event>)
    requires NoReissue(t, events) && id in t.commands && Final(t.commands[id])
    ensures id in RunFrom(t, events).commands && RunFrom(t, events).commands[id] == t.commands[id]
  {
    hide Perform;
    if events != [] {
      var before := RunFrom(t, events[..|events| - 1]);
      ImportedIsAbsorbing(t, id, events[..|events| - 1]);
      RankNeverFalls(before, events[|events| - 1]);
    }
  }

  /** A result that was recorded and is sent again, whatever happened in between, is refused as a conflict if its
      verification is a number or a Boolean, and acknowledged if it is a text or absent. */
  lemma RepeatIsAcknowledged(t: Tables, r: Report, events: seq<Event>)
    requires Sound(t) && r.claim.Ended? && Receive(t, r).0.Recorded?
    requires NoReissue(Receive(t, r).1, events)
    ensures Receive(RunFrom(Receive(t, r).1, events), r).0 == (if r.verification.Scalar? then Refused else Already)
    ensures Receive(RunFrom(Receive(t, r).1, events), r).1 == RunFrom(Receive(t, r).1, events)
  {
    var recorded := Receive(t, r).1;
    ReceiveIsSound(t, r);
    ClosingIsRecorded(t, r);
    assert Closed(recorded, r.commandId);
    TerminalIsAbsorbing(recorded, r.commandId, events);
    ResultsAreOfClosed(t);
  }

  /** A dispatched command that fails with the verification `true`: recorded, and refused the second time. */
  lemma ScalarIsRefusedWhenRepeated(id: string, agent: string)
    ensures var t := Tables(map[id := Command(agent, "RUN", Dispatched, Some(10), None, None, None, false)], map[]);
            var r := Report(true, id, agent, Ended(Failed), Scalar("True"), None, Some(1), None, None, "");
      && Receive(t, r).0 == Recorded
      && Receive(t, r).1.commands[id].verification == Some("True")
      && Receive(Receive(t, r).1, r) == (Refused, Receive(t, r).1)
  {
  }

  /** A result with a verification that no column can take is never recorded nor acknowledged, in whatever state,
      and changes nothing: the command stays open until it expires. */
  lemma UnbindableIsNeverTaken(t: Tables, r: Report)
    requires r.claim.Ended? && r.verification.Unbindable?
    ensures !Acknowledges(Receive(t, r).0) && Receive(t, r).1 == t
    ensures Receive(t, r).0.Unanswered? <==> MayEnd(t, r)
  {
    hide Verified, Evidenced, IdOf;
    if r.commandId in t.commands { VerifiedIsEvidenced(t.commands[r.commandId].action, r.verification); }
  }

  // ---------------------------------------------------------------- exactly which reports are taken

  /** A report of an end is recorded exactly when the end may be written and a column can take its verification. The
      row then says what the report says, under the name of the report; every other command is as it was. */
  lemma EndIsRecordedExactly(t: Tables, r: Report)
    requires r.claim.Ended?
    ensures Receive(t, r).0.Recorded? <==> MayEnd(t, r) && !r.verification.Unbindable?
    ensures Receive(t, r).0.Recorded? ==>
              var after, c := Receive(t, r).1, t.commands[r.commandId];
              && r.commandId in after.commands
              && var closed := after.commands[r.commandId];
              && after.commands == t.commands[r.commandId := closed]
              && closed == c.(status := Terminal(r.claim.end), verification := closed.verification, error := r.error,
                              resultId := Some(IdOf(r)))
              && (r.verification == NoVerification ==> closed.verification == None)
              && (r.verification.Plain? ==> closed.verification == Some(r.verification.text))
              && (r.verification.Scalar? ==> closed.verification == Some(r.verification.shown))
              && after.results == t.results[IdOf(r) := after.results[IdOf(r)]]
              && (IdOf(r) !in t.results ==> after.results[IdOf(r)] == Result(r.commandId, r.claim.end, r))
    ensures !Receive(t, r).0.Recorded? ==> Receive(t, r).1 == t
  {
    hide Verified, Evidenced, IdOf;
    if r.commandId in t.commands { VerifiedIsEvidenced(t.commands[r.commandId].action, r.verification); }
  }

  /** A report that execution has begun is recorded exactly for a dispatched command, and taken without effect for
      one that is executing already. */
  lemma StartIsRecordedExactly(t: Tables, r: Report)
    requires r.claim.Begun?
    ensures Receive(t, r).0.Recorded? <==> Proper(t, r) && t.commands[r.commandId].status == Dispatched
    ensures Receive(t, r).0.Already? <==> Proper(t, r) && t.commands[r.commandId].status == Executing
    ensures Receive(t, r).0.Recorded? ==>
              var begun := t.commands[r.commandId].(status := Executing);
              Receive(t, r).1 == t.(commands := t.commands[r.commandId := begun])
    ensures !Receive(t, r).0.Recorded? ==> Receive(t, r).1 == t
  {
  }

  /** A command that a result has closed takes that very report again, unless its verification is a scalar, and no
      other one. */
  lemma ClosedTakesItsOwnReport(t: Tables, id: string, r: Report)
    requires Closed(t, id) && r.commandId == id
    ensures Receive(t, r).0.Already? <==>
              r.wellFormed && r == t.results[t.commands[id].resultId.value].evidence && !r.verification.Scalar?
              && !r.verification.Unbindable?
    ensures !Receive(t, r).0.Already? ==> Receive(t, r).0.Refused?
    ensures Receive(t, r).1 == t
  {
    hide Verified, IdOf;
  }

  /** A report without a name of its own goes by what it says. */
  lemma NamesTellReportsApart(r: Report, q: Report)
    ensures r.resultId.Some? ==> IdOf(r) == r.resultId.value
    ensures r.resultId.None? && q.resultId.None? ==>
              (IdOf(r) == IdOf(q) <==>
                 r.commandId == q.commandId && r.agent == q.agent && r.claim == q.claim
                 && r.verification == q.verification && r.error == q.error && r.completedAt == q.completedAt)
  {
  }

  // ---------------------------------------------------------------- dispatch and expiry come in time

  /** A heartbeat leaves every command that awaits delivery dispatched, and touches no other. */
  lemma HeartbeatDispatches(t: Tables, agent: string, now: int)
    ensures var after := Perform(t, Beat(agent, now));
      && after.results == t.results && after.commands.Keys == t.commands.Keys
      && forall id :: id in t.commands ==>
           after.commands[id] == (if AwaitsDelivery(t.commands[id], agent, now)
                                  then t.commands[id].(status := Dispatched) else t.commands[id])
  {
    assert forall id :: id in t.commands ==>
             (Dispatchable(t.commands[id], agent, now) <==> AwaitsDelivery(t.commands[id], agent, now));
  }

  /** A sweep expires exactly the overdue commands, and leaves none. */
  lemma SweepLeavesNothingOverdue(t: Tables, now: int)
    ensures var after := Perform(t, Sweep(now));
      && after.results == t.results && after.commands.Keys == t.commands.Keys
      && forall id :: id in t.commands ==>
           && after.commands[id] == (if Overdue(t.commands[id], now) then Lapsed(t.commands[id]) else t.commands[id])
           && !Overdue(after.commands[id], now)
  {
    assert forall id :: id in t.commands ==> (Expirable(t.commands[id], now) <==> Overdue(t.commands[id], now));
  }

  /** The command's own agent asked for it before its time was over. */
  ghost predicate AskedInTime(events: seq<Event>, c: Command) {
    exists i :: 0 <= i < |events| && events[i].Beat? && events[i].agent == c.agent
                && c.expiresAt.Some? && events[i].now < c.expiresAt.value
  }

  /** A sweep came when the command's time was over. */
  ghost predicate SweptOverdue(events: seq<Event>, c: Command) {
    exists i :: 0 <= i < |events| && events[i].Sweep? && (c.expiresAt.Some? ==> c.expiresAt.value <= events[i].now)
  }

  lemma MoreEvents(events: seq<Event>, c: Command)
    requires events != []
    ensures AskedInTime(events[..|events| - 1], c) ==> AskedInTime(events, c)
    ensures SweptOverdue(events[..|events| - 1], c) ==> SweptOverdue(events, c)
  {
    var before := events[..|events| - 1];
    if i :| 0 <= i < |before| && before[i].Beat? && before[i].agent == c.agent
            && c.expiresAt.Some? && before[i].now < c.expiresAt.value {
      assert events[i] == before[i];
    }
    if i :| 0 <= i < |before| && before[i].Sweep? && (c.expiresAt.Some? ==> c.expiresAt.value <= before[i].now) {
      assert events[i] == before[i];
    }
  }

  /** What one step can make of a command. */
  lemma StatusComesFrom(t: Tables, e: Event, id: string)
    requires id in Perform(t, e).commands
    ensures var c := Perform(t, e).commands[id];
      && (c.status in [Dispatched, Executing] ==>
            || (id in t.commands && t.commands[id].status in [Dispatched, Executing]
                && t.commands[id].agent == c.agent && t.commands[id].expiresAt == c.expiresAt)
            || (e.Beat? && e.agent == c.agent && c.expiresAt.Some? && e.now < c.expiresAt.value))
      && (c.status == Expired ==>
            || (id in t.commands && t.commands[id] == c)
            || (e.Sweep? && (c.expiresAt.Some? ==> c.expiresAt.value <= e.now)
                && c.error == Some("Command expired before confirmed completion")))
  {
    match e
    case Arrival(r) =>
      if r.claim.Begun? { StartIsRecordedExactly(t, r); }
      else if r.claim.Ended? { EndIsRecordedExactly(t, r); }
    case Beat(agent, now) => HeartbeatDispatches(t, agent, now);
    case Sweep(now) => SweepLeavesNothingOverdue(t, now);
    case _ =>
  }

  /** Over every run: what is dispatched or executing was asked for by its own agent before its time was over, and
      what is expired was swept when it was. */
  lemma {:induction false} DispatchAndExpiryInTime(events: seq<Event>, id: string)
    requires id in Run(events).commands
    ensures var c := Run(events).commands[id];
      && (c.status in [Dispatched, Executing] ==> AskedInTime(events, c))
      && (c.status == Expired ==>
            SweptOverdue(events, c) && c.error == Some("Command expired before confirmed completion"))
  {
    hide Perform, AskedInTime, SweptOverdue;
    var before, last := Run(events[..|events| - 1]), events[|events| - 1];
    var c := Run(events).commands[id];
    StatusComesFrom(before, last, id);
    LastEventCounts(events, c);
    if id in before.commands {
      DispatchAndExpiryInTime(events[..|events| - 1], id);
      MoreEvents(events, before.commands[id]);
      SameTimes(events, before.commands[id], c);
    }
  }

  lemma LastEventCounts(events: seq<Event>, c: Command)
    requires events != []
    ensures var e := events[|events| - 1];
      && (e.Beat? && e.agent == c.agent && c.expiresAt.Some? && e.now < c.expiresAt.value ==> AskedInTime(events, c))
      && (e.Sweep? && (c.expiresAt.Some? ==> c.expiresAt.value <= e.now) ==> SweptOverdue(events, c))
  {
  }

  lemma SameTimes(events: seq<Event>, c: Command, d: Command)
    ensures c.agent == d.agent && c.expiresAt == d.expiresAt && AskedInTime(events, c) ==> AskedInTime(events, d)
  {
  }

  /** Over every run in which each identifier is saved once, a success that was reported is verified as its action
      demands; a success of an action that cannot be verified was imported. */
  lemma SuccessIsEvidenced(events: seq<Event>, id: string)
    requires IssuedOnce(events) && id in Run(events).commands && Run(events).commands[id].status == Terminal(Success)
    requires !ImportedIn(events, id)
    ensures var c := Run(events).commands[id];
      && (c.verification.Some? ==> Evidenced(c.action, Plain(c.verification.value)))
      && (c.verification.None? ==> Evidenced(c.action, NoVerification))
  {
    hide Run, IssuedOnce, ImportedIn, Verified, Evidenced, IdOf, StartedInTime;
    ResultRowsExactly(events, id);
    var t := Run(events);
    var v := t.results[t.commands[id].resultId.value].evidence.verification;
    VerifiedIsEvidenced(t.commands[id].action, v);
    EvidenceIsText(t.commands[id].action, v);
  }

  lemma EvidenceIsText(action: string, v: Verification)
    requires Evidenced(action, v)
    ensures !v.Plain? ==> forall text: string :: Evidenced(action, Plain(text))
  {
  }
}
