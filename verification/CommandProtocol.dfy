/**
Agent and manager together, for commands dispatched online: reports may be lost, delayed, repeated and
overtaken, the sweep may expire a command at any time, and the agent may crash.
*/
module CommandProtocol {
  import opened Options
  import opened CommandTable
  import opened CommandJournal

  /** `wire` holds every report ever posted, `acknowledged` those the manager took, now or before. */
  datatype World = World(agent: Agent, manager: Tables, wire: set<Report>, acknowledged: set<Report>)

  datatype Move =
    | AgentStep(step: Step)
    | ManagerEvent(event: Event)
    | PostStart(report: Report)
    | PostResult(id: string)
    | Arrive(report: Report)
    | HearReply(id: string)

  function Play(w: World, m: Move): World {
    match m
    case AgentStep(step) => if step.Acknowledged? then w else w.(agent := Advance(w.agent, step))
    case ManagerEvent(event) =>
      if event.Arrival? || Reissues(w.manager, event) then w else w.(manager := CommandTable.Perform(w.manager, event))
    case PostStart(report) =>
      if report.claim.Begun? && report.commandId in w.agent.journal then w.(wire := w.wire + {report}) else w
    case PostResult(id) =>
      if id in w.agent.journal && w.agent.journal[id].report.Some? && !w.agent.journal[id].reported
      then w.(wire := w.wire + {w.agent.journal[id].report.value}) else w
    case Arrive(report) =>
      if report !in w.wire then w
      else
        var received := Receive(w.manager, report);
        w.(manager := received.1,
           acknowledged := if Acknowledges(received.0) then w.acknowledged + {report} else w.acknowledged)
    case HearReply(id) =>
      if id in w.agent.journal && w.agent.journal[id].report.Some? && w.agent.journal[id].report.value in w.acknowledged
      then w.(agent := Advance(w.agent, Acknowledged(id))) else w
  }

  const BEGINNING := World(NEW_AGENT, Tables(map[], map[]), {}, {})

  function Game(moves: seq<Move>): World {
    if moves == [] then BEGINNING else Play(Game(moves[..|moves| - 1]), moves[|moves| - 1])
  }

  /** The manager's row says what the report says. */
  ghost predicate SaysTheSame(t: Tables, r: Report) {
    && r.claim.Ended? && r.commandId in t.commands
    && var c := t.commands[r.commandId];
    && c.status == Terminal(r.claim.end) && c.verification == Stored(r.verification) && c.error == r.error
  }

  /** And it says so because of this report, unless it came with offline evidence. */
  ghost predicate Agrees(t: Tables, r: Report) {
    && SaysTheSame(t, r)
    && (t.commands[r.commandId].resultId == Some(IdOf(r)) || Imported(t, r.commandId))
  }

  ghost predicate JournalHas(a: Agent, r: Report) {
    r.commandId in a.journal && a.journal[r.commandId].report == Some(r)
  }

  ghost predicate InStep(w: World) {
    && Exclusive(w.agent) && Sound(w.manager)
    && (forall r :: r in w.wire && r.claim.Ended? ==> JournalHas(w.agent, r))
    && (forall r :: r in w.acknowledged && r.claim.Ended? ==> r in w.wire && Agrees(w.manager, r))
    && (forall id :: id in w.agent.journal && w.agent.journal[id].reported ==>
          w.agent.journal[id].report.Some? && w.agent.journal[id].report.value in w.acknowledged)
    && (forall k :: k in w.manager.results ==> w.manager.results[k].evidence in w.wire)
  }

  lemma AgreementStays(t: Tables, e: Event, r: Report)
    requires Sound(t) && !Reissues(t, e) && Agrees(t, r)
    ensures Agrees(CommandTable.Perform(t, e), r)
  {
    hide CommandTable.Perform;
    RankNeverFalls(t, e);
  }

  /** What the manager acknowledges it agrees with, and every new result row is the report itself. */
  lemma AcknowledgedMeansAgreed(t: Tables, r: Report)
    requires Sound(t)
    ensures r.claim.Ended? && Acknowledges(Receive(t, r).0) ==> Agrees(Receive(t, r).1, r)
    ensures forall k :: k in Receive(t, r).1.results ==>
              (k in t.results && Receive(t, r).1.results[k] == t.results[k]) || Receive(t, r).1.results[k].evidence == r
  {
    assert r.commandId in t.commands && t.commands[r.commandId].status.Terminal? ==>
             CommandTable.Closed(t, r.commandId) || Imported(t, r.commandId);
  }

  lemma MoveStaysInStep(w: World, m: Move)
    requires InStep(w)
    ensures InStep(Play(w, m))
  {
    hide Advance, Receive, CommandTable.Perform, Exclusive, Sound, Agrees;
    match m
    case AgentStep(step) =>
      if !step.Acknowledged? {
        AdvanceIsExclusive(w.agent, step);
        NothingIsReported(w.agent, step);
      }
    case ManagerEvent(event) =>
      if !event.Arrival? && !Reissues(w.manager, event) {
        StepIsSound(w.manager, event);
        forall r | r in w.acknowledged && r.claim.Ended? ensures Agrees(CommandTable.Perform(w.manager, event), r) {
          AgreementStays(w.manager, event, r);
        }
        ResultsAreKept(w.manager, event);
      }
    case PostStart(report) =>
    case PostResult(id) =>
      JournalNames(w.agent);
    case Arrive(report) =>
      ReceiveIsSound(w.manager, report);
      AcknowledgedMeansAgreed(w.manager, report);
      forall r | r in w.acknowledged && r.claim.Ended? ensures Agrees(Receive(w.manager, report).1, r) {
        ArrivalIsReceipt(w.manager, report);
        AgreementStays(w.manager, Arrival(report), r);
      }
    case HearReply(id) =>
      if id in w.agent.journal && w.agent.journal[id].report.Some? {
        AdvanceIsExclusive(w.agent, Acknowledged(id));
        OnlyReported(w.agent, id);
      }
  }

  lemma JournalNames(a: Agent)
    requires Exclusive(a)
    ensures forall id :: id in a.journal && a.journal[id].report.Some? ==> a.journal[id].report.value.commandId == id
  {
    forall id | id in a.journal && a.journal[id].report.Some? ensures a.journal[id].report.value.commandId == id {
      assert EntrySound(id, a.journal[id]);
    }
  }

  lemma NothingIsReported(a: Agent, s: Step)
    requires Exclusive(a) && !s.Acknowledged?
    ensures forall id :: id in Advance(a, s).journal && Advance(a, s).journal[id].reported ==>
              id in a.journal && a.journal[id].reported && a.journal[id].report.Some?
  {
    hide NoRepeats, Owns, Exclusive;
    EntriesAreSound(a);
  }

  lemma EntriesAreSound(a: Agent)
    requires Exclusive(a)
    ensures forall id :: id in a.journal ==> EntrySound(id, a.journal[id])
    ensures forall id :: id in a.journal && a.journal[id].reported ==> a.journal[id].report.Some?
  {
    forall id | id in a.journal && a.journal[id].reported ensures a.journal[id].report.Some? {
      assert EntrySound(id, a.journal[id]);
    }
  }

  lemma OnlyReported(a: Agent, id: string)
    requires id in a.journal && a.journal[id].report.Some?
    ensures var after := Advance(a, Acknowledged(id));
      && after.journal.Keys == a.journal.Keys
      && forall other :: other in a.journal ==>
           after.journal[other].report == a.journal[other].report
           && (after.journal[other].reported ==> a.journal[other].reported || other == id)
  {
  }

  lemma ResultsAreKept(t: Tables, e: Event)
    requires !e.Arrival?
    ensures CommandTable.Perform(t, e).results == t.results
  {
  }

  lemma ArrivalIsReceipt(t: Tables, r: Report)
    ensures CommandTable.Perform(t, Arrival(r)) == Receive(t, r).1
  {
  }

  lemma {:induction false} GameStaysInStep(moves: seq<Move>)
    ensures InStep(Game(moves))
  {
    if moves != [] {
      GameStaysInStep(moves[..|moves| - 1]);
      MoveStaysInStep(Game(moves[..|moves| - 1]), moves[|moves| - 1]);
    }
  }

  /** Whatever happens: a command the journal counts as reported is terminal at the manager with the
      status, verification and error of the journal's one report. */
  lemma ReportedMeansAgreed(moves: seq<Move>, id: string)
    requires id in Game(moves).agent.journal && Game(moves).agent.journal[id].reported
    ensures var w := Game(moves);
      && w.agent.journal[id].report.Some? && w.agent.journal[id].report.value.commandId == id
      && Agrees(w.manager, w.agent.journal[id].report.value)
  {
    GameStaysInStep(moves);
    JournalNames(Game(moves).agent);
  }

  /** And a command that is terminal at the manager, if it was not imported, was ended by the journal's report
      and by no other. */
  lemma TerminalMeansJournalled(moves: seq<Move>, id: string)
    requires id in Game(moves).manager.commands && Game(moves).manager.commands[id].status.Terminal?
    ensures var w := Game(moves);
      || Imported(w.manager, id)
      || (id in w.agent.journal && w.agent.journal[id].report.Some?
          && Agrees(w.manager, w.agent.journal[id].report.value)
          && w.manager.commands[id].resultId == Some(IdOf(w.agent.journal[id].report.value)))
  {
    GameStaysInStep(moves);
    var w := Game(moves);
    assert CommandTable.Closed(w.manager, id) || Imported(w.manager, id);
    if CommandTable.Closed(w.manager, id) {
      var r := w.manager.results[w.manager.commands[id].resultId.value].evidence;
      assert r in w.wire && r.claim.Ended?;
    }
  }

  /** A report that waits in the journal reaches the manager and is marked as reported by one posting, when the
      command may still end at the manager and nothing is lost. */
  lemma WaitingReportIsDelivered(moves: seq<Move>, id: string)
    requires var w := Game(moves);
             && id in w.agent.journal && w.agent.journal[id].report.Some? && !w.agent.journal[id].reported
             && MayEnd(w.manager, w.agent.journal[id].report.value)
             && !w.agent.journal[id].report.value.verification.Unbindable?
    ensures var r := Game(moves).agent.journal[id].report.value;
            var w := Game(moves + [PostResult(id)] + [Arrive(r)] + [HearReply(id)]);
      && id in w.agent.journal && w.agent.journal[id] == Game(moves).agent.journal[id].(reported := true)
      && SaysTheSame(w.manager, r) && w.agent.executed == Game(moves).agent.executed
  {
    var w := Game(moves);
    var r := w.agent.journal[id].report.value;
    GameStaysInStep(moves);
    JournalNames(w.agent);
    GameGoesOn(moves, PostResult(id));
    GameGoesOn(moves + [PostResult(id)], Arrive(r));
    GameGoesOn(moves + [PostResult(id)] + [Arrive(r)], HearReply(id));
    EndIsRecordedExactly(w.manager, r);
    hide Game, MayEnd, Receive, InStep, Advance;
    var received := Receive(w.manager, r);
    var posted := Play(w, PostResult(id));
    OneExchange(w, id);
    var arrived := Play(posted, Arrive(r));
    AcknowledgedIsMarked(arrived.agent, id);
  }

  /** The report is posted, taken, and the reply heard. */
  lemma OneExchange(w: World, id: string)
    requires id in w.agent.journal && w.agent.journal[id].report.Some? && !w.agent.journal[id].reported
    requires Receive(w.manager, w.agent.journal[id].report.value).0.Recorded?
    ensures var r := w.agent.journal[id].report.value;
            var heard := Play(Play(Play(w, PostResult(id)), Arrive(r)), HearReply(id));
      heard.manager == Receive(w.manager, r).1 && heard.agent == Advance(w.agent, Acknowledged(id))
    ensures Play(Play(w, PostResult(id)), Arrive(w.agent.journal[id].report.value)).agent == w.agent
  {
    hide Receive, Advance;
  }

  lemma AcknowledgedIsMarked(a: Agent, id: string)
    requires id in a.journal && a.journal[id].report.Some?
    ensures Advance(a, Acknowledged(id)) == a.(journal := a.journal[id := a.journal[id].(reported := true)])
  {
  }

  lemma GameGoesOn(moves: seq<Move>, m: Move)
    ensures Game(moves + [m]) == Play(Game(moves), m)
  {
    assert (moves + [m])[..|moves|] == moves;
  }

  /** The start of execution, once posted and arrived, makes a dispatched command an executing one. */
  lemma StartIsDelivered(w: World, r: Report)
    requires r.claim.Begun? && r.commandId in w.agent.journal
    requires Proper(w.manager, r) && w.manager.commands[r.commandId].status == Dispatched
    ensures var after := Play(Play(w, PostStart(r)), Arrive(r));
      && r.commandId in after.manager.commands && after.manager.commands[r.commandId].status == Executing
      && after.agent == w.agent && after.manager.results == w.manager.results
  {
    StartIsRecordedExactly(w.manager, r);
    hide Receive;
  }

  /** A report whose reply was lost is marked by another posting, however often it takes: the manager takes what
      closed the command once more, and nothing changes there. */
  lemma RepeatedReportIsDelivered(moves: seq<Move>, id: string)
    requires var w := Game(moves);
             && id in w.agent.journal && w.agent.journal[id].report.Some? && !w.agent.journal[id].reported
             && var r := w.agent.journal[id].report.value;
             && CommandTable.Closed(w.manager, id) && r.wellFormed
             && r == w.manager.results[w.manager.commands[id].resultId.value].evidence
             && !r.verification.Scalar? && !r.verification.Unbindable?
    ensures var w := Play(Game(moves), PostResult(id));
            var r := Game(moves).agent.journal[id].report.value;
      && r in Play(w.(acknowledged := {}), Arrive(r)).acknowledged && Play(w, Arrive(r)).manager == w.manager
      && var heard := Play(Play(w, Arrive(r)), HearReply(id));
         id in heard.agent.journal && heard.agent.journal[id] == Game(moves).agent.journal[id].(reported := true)
  {
    var w := Game(moves);
    GameStaysInStep(moves);
    JournalNames(w.agent);
    ClosedTakesItsOwnReport(w.manager, id, w.agent.journal[id].report.value);
    hide Game, Receive, InStep, CommandTable.Closed, Play, Advance;
    RepeatedExchange(w, id);
    AcknowledgedIsMarked(w.agent, id);
  }

  lemma RepeatedExchange(w: World, id: string)
    requires id in w.agent.journal && w.agent.journal[id].report.Some? && !w.agent.journal[id].reported
    requires Receive(w.manager, w.agent.journal[id].report.value) == (Already, w.manager)
    ensures var r := w.agent.journal[id].report.value;
            var posted := Play(w, PostResult(id));
      && r in Play(posted.(acknowledged := {}), Arrive(r)).acknowledged && Play(posted, Arrive(r)).manager == w.manager
      && posted.manager == w.manager
      && Play(Play(posted, Arrive(r)), HearReply(id)).agent == Advance(w.agent, Acknowledged(id))
  {
    hide Receive, Advance;
  }

  /** A report that a dispatched command of this agent and action may end with. */
  ghost predicate MayReport(r: Report, id: string, agent: string, action: string) {
    && r.wellFormed && r.commandId == id && r.agent == agent && r.claim.Ended? && !r.verification.Unbindable?
    && (r.claim.end.Success? ==> Evidenced(action, r.verification))
  }

  ghost function Issued(id: string, agent: string, action: string, expiresAt: int, now: int): seq<Move> {
    [ManagerEvent(Issue(id, agent, action, Some(expiresAt)))] + [ManagerEvent(Beat(agent, now))]
  }

  ghost function Handled(thread: nat, id: string, report: Report): seq<Move> {
    [AgentStep(Deliver(thread, id))] + [AgentStep(Begins(thread))] + [AgentStep(Executes(thread))]
    + [AgentStep(Returns(thread, report))] + [AgentStep(Finishes(thread))]
  }

  /** From every state a game can reach, a command with a new identifier runs its course: issued, handed out by its
      agent's next heartbeat, executed once, and its report taken by the manager and marked. */
  lemma CommandRunsItsCourse(moves: seq<Move>, id: string, agent: string, action: string, expiresAt: int, now: int,
                             thread: nat, r: Report)
    requires var w := Game(moves);
             && id !in w.manager.commands && id !in w.agent.journal && thread !in w.agent.threads
             && IdOf(r) !in w.manager.results
    requires MayReport(r, id, agent, action) && now < expiresAt
    ensures var w := Game(moves + Issued(id, agent, action, expiresAt, now) + Handled(thread, id, r)
                          + [PostResult(id)] + [Arrive(r)] + [HearReply(id)]);
      && SaysTheSame(w.manager, r) && w.agent.executed == Game(moves).agent.executed + [id]
      && id in w.agent.journal && w.agent.journal[id].report == Some(r) && w.agent.journal[id].reported
  {
    var issued := moves + Issued(id, agent, action, expiresAt, now);
    var handled := issued + Handled(thread, id, r);
    CommandIsHandedOut(moves, id, agent, action, expiresAt, now);
    CommandIsHandled(issued, thread, id, r);
    var w := Game(handled);
    assert w.agent.journal[id] == Entry(Closed(r.claim.end), Some(r), false);
    WaitingReportIsDelivered(handled, id);
  }

  lemma CommandIsHandedOut(moves: seq<Move>, id: string, agent: string, action: string, expiresAt: int, now: int)
    requires id !in Game(moves).manager.commands && now < expiresAt
    ensures var w := Game(moves + Issued(id, agent, action, expiresAt, now));
      && w.agent == Game(moves).agent && w.manager.results == Game(moves).manager.results
      && id in w.manager.commands
      && w.manager.commands[id] == Command(agent, action, Dispatched, Some(expiresAt), None, None, None, false)
  {
    var issue, beat := ManagerEvent(Issue(id, agent, action, Some(expiresAt))), ManagerEvent(Beat(agent, now));
    GameGoesOn(moves, issue);
    GameGoesOn(moves + [issue], beat);
    assert moves + Issued(id, agent, action, expiresAt, now) == moves + [issue] + [beat];
    hide Game, CommandTable.Perform;
    NewCommandIsHandedOut(Game(moves).manager, id, agent, action, expiresAt, now);
  }

  lemma NewCommandIsHandedOut(t: Tables, id: string, agent: string, action: string, expiresAt: int, now: int)
    requires now < expiresAt
    ensures var issued := CommandTable.Perform(t, Issue(id, agent, action, Some(expiresAt)));
            var after := CommandTable.Perform(issued, Beat(agent, now));
      && after.results == t.results && id in after.commands
      && after.commands[id] == Command(agent, action, Dispatched, Some(expiresAt), None, None, None, false)
  {
    var issued := CommandTable.Perform(t, Issue(id, agent, action, Some(expiresAt)));
    HeartbeatDispatches(issued, agent, now);
  }

  lemma CommandIsHandled(moves: seq<Move>, thread: nat, id: string, r: Report)
    requires var a := Game(moves).agent; id !in a.journal && thread !in a.threads
    requires r.claim.Ended? && r.commandId == id
    ensures var before, w := Game(moves), Game(moves + Handled(thread, id, r));
      && w.manager == before.manager && w.agent.executed == before.agent.executed + [id]
      && id in w.agent.journal && w.agent.journal[id] == Entry(Closed(r.claim.end), Some(r), false)
  {
    var s1, s2, s3 := AgentStep(Deliver(thread, id)), AgentStep(Begins(thread)), AgentStep(Executes(thread));
    var s4, s5 := AgentStep(Returns(thread, r)), AgentStep(Finishes(thread));
    var m1 := moves + [s1];
    GameGoesOn(moves, s1);
    GameGoesOn(m1, s2);
    GameGoesOn(m1 + [s2], s3);
    GameGoesOn(m1 + [s2] + [s3], s4);
    GameGoesOn(m1 + [s2] + [s3] + [s4], s5);
    assert moves + Handled(thread, id, r) == m1 + [s2] + [s3] + [s4] + [s5];
    AgentHandles(Game(moves).agent, thread, id, r);
  }

  lemma AgentHandles(a: Agent, thread: nat, id: string, r: Report)
    requires id !in a.journal && thread !in a.threads && r.claim.Ended? && r.commandId == id
    ensures var b := Advance(Advance(Advance(a, Deliver(thread, id)), Begins(thread)), Executes(thread));
            var c := Advance(Advance(b, Returns(thread, r)), Finishes(thread));
      && c.executed == a.executed + [id]
      && id in c.journal && c.journal[id] == Entry(Closed(r.claim.end), Some(r), false)
  {
  }
}
