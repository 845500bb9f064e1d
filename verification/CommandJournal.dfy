/**
The agent's command journal: the durable claim that keeps a command from running twice, whatever
threads, redeliveries, crashes and restarts do around it.
*/
module CommandJournal {
  import opened Options
  import opened CommandTable

  datatype Phase = Received | Running | Closed(end: End)

  datatype Entry = Entry(phase: Phase, report: Option<Report>, reported: bool)

  /** What a delivery is answered with. */
  datatype Answer = Claimed | StillRunning | Known(report: Report)

  function ClaimStep(journal: map<string, Entry>, id: string): (Answer, map<string, Entry>) {
    if id in journal then
      (if journal[id].report.Some? then Known(journal[id].report.value) else StillRunning, journal)
    else (Claimed, journal[id := Entry(Received, None, false)])
  }

  predicate Interrupted(e: Entry) {
    e.report.None? && (e.phase.Received? || e.phase.Running?)
  }

  /** The report a restart writes for a claim that never finished. */
  function UnknownReport(id: string, agent: string, now: string): Report {
    Report(true, id, agent, Ended(UnknownEnd), Plain("UNKNOWN"),
           Some("Agent restarted with an unfinished execution claim; action was not repeated"),
           None, Some(now), Some(Chosen("result-" + id + ":UNKNOWN")), "")
  }

  function Close(e: Entry, id: string, agent: string, now: string): Entry {
    Entry(Closed(UnknownEnd), Some(UnknownReport(id, agent, now)), e.reported)
  }

  function Recovered(journal: map<string, Entry>, agent: string, now: string): map<string, Entry> {
    map id | id in journal ::
      if Interrupted(journal[id]) then Close(journal[id], id, agent, now) else journal[id]
  }

  /** How posting a report ends: with status 200, with another one, or with an exception. */
  datatype Posting = Taken | NotTaken | Raised

  /** The report of this command is waiting to be posted to the manager. */
  predicate Uploadable(e: Entry, id: string, offline: set<string>) {
    e.report.Some? && !e.reported && id !in offline
  }

  class Journal {
    const agent: string
    var entries: map<string, Entry>

    constructor (agent: string)
      ensures this.agent == agent && entries == map[]
    { this.agent := agent; entries := map[]; }

    /** The claiming transaction at the head of `execute_command`: a new command is claimed, a known one is answered
        with its report, or with the unfinished claim if it has none. */
    method Claim(id: string) returns (answer: Answer)
      modifies this`entries
      ensures (answer, entries) == ClaimStep(old(entries), id)
      ensures answer.Claimed? <==> id !in old(entries)
      ensures answer.StillRunning? <==> id in old(entries) && old(entries)[id].report.None?
      ensures answer.Known? <==> id in old(entries) && old(entries)[id].report.Some?
      ensures answer.Known? ==> old(entries)[id].report == Some(answer.report)
      ensures entries == if id in old(entries) then old(entries) else old(entries)[id := Entry(Received, None, false)]
    {
      if id in entries {
        return if entries[id].report.Some? then Known(entries[id].report.value) else StillRunning;
      }
      entries := entries[id := Entry(Received, None, false)];
      answer := Claimed;
    }

    method Begin(id: string)
      requires id in entries
      modifies this`entries
      ensures entries == old(entries)[id := old(entries)[id].(phase := Running)]
    {
      entries := entries[id := entries[id].(phase := Running)];
    }

    method Finish(id: string, report: Report)
      requires id in entries && report.claim.Ended?
      modifies this`entries
      ensures entries == old(entries)[id := Entry(Closed(report.claim.end), Some(report), old(entries)[id].reported)]
    {
      entries := entries[id := entries[id].(phase := Closed(report.claim.end), report := Some(report))];
    }

    method MarkReported(id: string)
      requires id in entries
      modifies this`entries
      ensures entries == old(entries)[id := old(entries)[id].(reported := true)]
    {
      entries := entries[id := entries[id].(reported := true)];
    }

    /** `upload_results`: every waiting report is posted, until an exception; the ones taken are marked, and
        nothing else changes. `offline` are the commands that were never dispatched by the manager. */
    method UploadResults(offline: set<string>, post: Report -> Posting)
      modifies this`entries
      ensures entries.Keys == old(entries).Keys
      ensures forall id :: id in entries && entries[id] != old(entries)[id] ==>
                && id !in offline && old(entries)[id].report.Some? && post(old(entries)[id].report.value).Taken?
                && entries[id] == old(entries)[id].(reported := true)
      ensures (forall id :: id in old(entries) && id !in offline && old(entries)[id].report.Some? ==>
                 old(entries)[id].reported || !post(old(entries)[id].report.value).Raised?) ==>
              forall id :: id in entries && id !in offline && entries[id].report.Some? ==>
                entries[id].reported || post(entries[id].report.value).NotTaken?
    {
      var rows := set id | id in entries && Uploadable(entries[id], id, offline);
      ghost var done := {};
      while rows != {}
        invariant rows !! done && entries.Keys == old(entries).Keys
        invariant rows + done == set id | id in old(entries) && Uploadable(old(entries)[id], id, offline)
        invariant forall id :: id in entries ==>
                    entries[id] == (if id in done && post(old(entries)[id].report.value).Taken?
                                    then old(entries)[id].(reported := true) else old(entries)[id])
        decreases rows
      {
        var id :| id in rows;
        rows := rows - {id};
        var posting := post(entries[id].report.value);
        if posting.Raised? { return; }
        if posting.Taken? { MarkReported(id); }
        done := done + {id};
      }
      assert done == set id | id in old(entries) && Uploadable(old(entries)[id], id, offline);
    }

    /** `recover_interrupted_commands`, run once when the agent starts. */
    method Recover(now: string) returns (recovered: nat)
      modifies this`entries
      ensures entries == Recovered(old(entries), agent, now)
      ensures recovered == |set id | id in old(entries) && Interrupted(old(entries)[id])|
    {
      hide Close;
      var rows := set id | id in entries && Interrupted(entries[id]);
      ghost var done := {};
      recovered := 0;
      while rows != {}
        invariant rows !! done && entries.Keys == old(entries).Keys && recovered == |done|
        invariant rows + done == set id | id in old(entries) && Interrupted(old(entries)[id])
        invariant forall id :: id in entries ==>
                    entries[id] == (if id in done then Close(old(entries)[id], id, agent, now) else old(entries)[id])
        decreases rows
      {
        var id :| id in rows;
        rows := rows - {id};
        entries := entries[id := Close(entries[id], id, agent, now)];
        done := done + {id};
        recovered := recovered + 1;
      }
      assert done == set id | id in old(entries) && Interrupted(old(entries)[id]);
    }
  }

  // ---------------------------------------------------------------- threads, crashes and restarts

  /** Where a delivering thread stands between two of its transactions. */
  datatype Stage = HasClaim | HasBegun | InExecutor | HasReport(report: Report)

  datatype Thread = Thread(id: string, stage: Stage)

  /** `executed` lists every call of the executor, in order. */
  datatype Agent = Agent(journal: map<string, Entry>, threads: map<nat, Thread>, executed: seq<string>)

  /** One transaction or call of one thread, or the end of the process followed by its restart. */
  datatype Step =
    | Deliver(thread: nat, id: string)
    | Begins(thread: nat)
    | Executes(thread: nat)
    | Returns(thread: nat, report: Report)
    | Finishes(thread: nat)
    | Restart(agent: string, now: string)
    | Acknowledged(id: string)

  predicate AtStage(a: Agent, thread: nat, stage: Stage) {
    thread in a.threads && a.threads[thread].stage == stage && a.threads[thread].id in a.journal
  }

  function Advance(a: Agent, s: Step): Agent {
    match s
    case Deliver(thread, id) =>
      if thread in a.threads then a
      else
        var claim := ClaimStep(a.journal, id);
        Agent(claim.1, if claim.0.Claimed? then a.threads[thread := Thread(id, HasClaim)] else a.threads, a.executed)
    case Begins(thread) =>
      if !AtStage(a, thread, HasClaim) then a
      else
        var id := a.threads[thread].id;
        Agent(a.journal[id := a.journal[id].(phase := Running)], a.threads[thread := Thread(id, HasBegun)], a.executed)
    case Executes(thread) =>
      if !AtStage(a, thread, HasBegun) then a
      else
        var id := a.threads[thread].id;
        Agent(a.journal, a.threads[thread := Thread(id, InExecutor)], a.executed + [id])
    case Returns(thread, report) =>
      if !AtStage(a, thread, InExecutor) || !report.claim.Ended? || report.commandId != a.threads[thread].id then a
      else Agent(a.journal, a.threads[thread := Thread(a.threads[thread].id, HasReport(report))], a.executed)
    case Finishes(thread) =>
      if thread !in a.threads || !a.threads[thread].stage.HasReport? || a.threads[thread].id !in a.journal then a
      else
        var id, report := a.threads[thread].id, a.threads[thread].stage.report;
        if !report.claim.Ended? then a
        else Agent(a.journal[id := Entry(Closed(report.claim.end), Some(report), a.journal[id].reported)],
                   a.threads - {thread}, a.executed)
    case Restart(agent, now) => Agent(Recovered(a.journal, agent, now), map[], a.executed)
    case Acknowledged(id) =>
      if id in a.journal && a.journal[id].report.Some?
      then a.(journal := a.journal[id := a.journal[id].(reported := true)])
      else a
  }

  const NEW_AGENT := Agent(map[], map[], [])

  function RunFrom(a: Agent, steps: seq<Step>): Agent {
    if steps == [] then a else Advance(RunFrom(a, steps[..|steps| - 1]), steps[|steps| - 1])
  }

  ghost predicate NoRepeats(ids: seq<string>) {
    forall i, j :: 0 <= i < j < |ids| ==> ids[i] != ids[j]
  }

  /** A thread's command is claimed and has no report; a report it brings is about that command. */
  ghost predicate Owns(a: Agent, t: Thread) {
    && t.id in a.journal && a.journal[t.id].report.None?
    && (t.stage.HasReport? ==> t.stage.report.commandId == t.id && t.stage.report.claim.Ended?)
    && (t.stage.HasClaim? || t.stage.HasBegun? ==> t.id !in a.executed)
  }

  ghost predicate EntrySound(id: string, e: Entry) {
    match e.report
    case Some(r) => r.claim.Ended? && r.commandId == id
    case None => Interrupted(e) && !e.reported
  }

  /** A thread owns its command alone; the executor was called once at most for each command, and only
      for commands that are claimed. */
  ghost predicate Exclusive(a: Agent) {
    && (forall t :: t in a.threads ==> Owns(a, a.threads[t]))
    && (forall t, u :: t in a.threads && u in a.threads && a.threads[t].id == a.threads[u].id ==> t == u)
    && (forall id :: id in a.executed ==> id in a.journal)
    && NoRepeats(a.executed)
    && (forall id :: id in a.journal ==> EntrySound(id, a.journal[id]))
  }

  lemma EntriesAdvance(a: Agent, s: Step)
    requires Exclusive(a)
    ensures forall id :: id in Advance(a, s).journal ==> EntrySound(id, Advance(a, s).journal[id])
  {
    hide NoRepeats;
  }

  lemma JournalAdvances(a: Agent, s: Step)
    requires Exclusive(a)
    ensures forall id :: id in Advance(a, s).journal ==> EntrySound(id, Advance(a, s).journal[id])
    ensures forall id :: id in a.journal ==> id in Advance(a, s).journal
    ensures forall id :: id in a.journal && a.journal[id].report.Some? ==>
              Advance(a, s).journal[id].report == a.journal[id].report
    ensures forall id :: id in a.journal && a.journal[id].reported ==> Advance(a, s).journal[id].reported
  {
    EntriesAdvance(a, s);
    hide NoRepeats, EntrySound;
  }

  lemma ThreadsAdvance(a: Agent, s: Step)
    requires Exclusive(a)
    ensures var after := Advance(a, s);
      && (forall t :: t in after.threads ==> Owns(after, after.threads[t]))
      && (forall t, u :: t in after.threads && u in after.threads && after.threads[t].id == after.threads[u].id ==>
            t == u)
  {
    hide NoRepeats, EntrySound;
  }

  lemma ExecutorAdvances(a: Agent, s: Step)
    requires Exclusive(a)
    ensures NoRepeats(Advance(a, s).executed)
    ensures forall id :: id in Advance(a, s).executed ==> id in Advance(a, s).journal
  {
    hide EntrySound;
  }

  lemma AdvanceIsExclusive(a: Agent, s: Step)
    requires Exclusive(a)
    ensures Exclusive(Advance(a, s))
    ensures forall id :: id in a.journal ==> id in Advance(a, s).journal
    ensures forall id :: id in a.journal && a.journal[id].report.Some? ==>
              Advance(a, s).journal[id].report == a.journal[id].report
    ensures forall id :: id in a.journal && a.journal[id].reported ==> Advance(a, s).journal[id].reported
  {
    hide Advance, NoRepeats, EntrySound, Owns;
    JournalAdvances(a, s);
    ThreadsAdvance(a, s);
    ExecutorAdvances(a, s);
  }

  lemma {:induction false} RunIsExclusive(a: Agent, steps: seq<Step>)
    requires Exclusive(a)
    ensures Exclusive(RunFrom(a, steps))
    ensures forall id :: id in a.journal && a.journal[id].report.Some? ==>
              id in RunFrom(a, steps).journal && RunFrom(a, steps).journal[id].report == a.journal[id].report
  {
    if steps != [] {
      RunIsExclusive(a, steps[..|steps| - 1]);
      AdvanceIsExclusive(RunFrom(a, steps[..|steps| - 1]), steps[|steps| - 1]);
    }
  }

  /** Under any interleaving of deliveries, redeliveries, crashes and restarts, no command reaches the
      executor twice. */
  lemma AtMostOnce(steps: seq<Step>)
    ensures NoRepeats(RunFrom(NEW_AGENT, steps).executed)
  {
    RunIsExclusive(NEW_AGENT, steps);
  }

  /** Once a command has a report, every later delivery is answered with that report. */
  lemma ReportIsFinal(steps: seq<Step>, id: string, later: seq<Step>)
    requires var a := RunFrom(NEW_AGENT, steps); id in a.journal && a.journal[id].report.Some?
    ensures var a := RunFrom(NEW_AGENT, steps);
            ClaimStep(RunFrom(a, later).journal, id) == (Known(a.journal[id].report.value), RunFrom(a, later).journal)
  {
    RunIsExclusive(NEW_AGENT, steps);
    RunIsExclusive(RunFrom(NEW_AGENT, steps), later);
  }

  /** After a restart every claimed command has a report: the one it had, or one that says that its end is unknown.
      None that was cut short runs again. */
  lemma RestartClosesClaims(steps: seq<Step>, agent: string, now: string, id: string, later: seq<Step>)
    requires id in RunFrom(NEW_AGENT, steps).journal
    ensures var before := RunFrom(NEW_AGENT, steps).journal[id];
            var after := Advance(RunFrom(NEW_AGENT, steps), Restart(agent, now)).journal[id];
      && after.report.Some? && after.reported == before.reported
      && (before.report.Some? ==> after == before)
      && (before.report.None? ==>
            && after.phase == Closed(UnknownEnd) && after.report.value.claim == Ended(UnknownEnd)
            && after.report.value.commandId == id && after.report.value.agent == agent
            && after.report.value.verification == Plain("UNKNOWN") && after.report.value.wellFormed
            && after.report.value.completedAt == Some(now)
            && after.report.value.resultId == Some(Chosen("result-" + id + ":UNKNOWN"))
            && after.report.value.error ==
               Some("Agent restarted with an unfinished execution claim; action was not repeated"))
    ensures var a := Advance(RunFrom(NEW_AGENT, steps), Restart(agent, now));
      && a.executed == RunFrom(NEW_AGENT, steps).executed
      && a.executed <= RunFrom(a, later).executed
      && id !in RunFrom(a, later).executed[|a.executed|..]
  {
    RunIsExclusive(NEW_AGENT, steps);
    assert EntrySound(id, RunFrom(NEW_AGENT, steps).journal[id]);
    AdvanceIsExclusive(RunFrom(NEW_AGENT, steps), Restart(agent, now));
    ReportedIsNotExecuted(Advance(RunFrom(NEW_AGENT, steps), Restart(agent, now)), id, later);
  }

  lemma {:induction false} ReportedIsNotExecuted(a: Agent, id: string, steps: seq<Step>)
    requires Exclusive(a) && id in a.journal && a.journal[id].report.Some?
    ensures a.executed <= RunFrom(a, steps).executed && id !in RunFrom(a, steps).executed[|a.executed|..]
  {
    if steps != [] {
      var before := RunFrom(a, steps[..|steps| - 1]);
      ReportedIsNotExecuted(a, id, steps[..|steps| - 1]);
      RunIsExclusive(a, steps[..|steps| - 1]);
    }
  }

  // ---------------------------------------------------------------- a delivered command is executed

  /** A step of another thread, or an acknowledgement; the process goes on. */
  ghost predicate Elsewhere(s: Step, thread: nat) {
    match s
    case Deliver(other, _) => other != thread
    case Begins(other) => other != thread
    case Executes(other) => other != thread
    case Returns(other, _) => other != thread
    case Finishes(other) => other != thread
    case Restart(_, _) => false
    case Acknowledged(_) => true
  }

  /** The thread's stage and its command's entry are the same, and its command was not executed. */
  ghost predicate Undisturbed(a: Agent, b: Agent, thread: nat) {
    && thread in a.threads && thread in b.threads && b.threads[thread] == a.threads[thread]
    && var id := a.threads[thread].id;
    && id in a.journal && id in b.journal && b.journal[id] == a.journal[id]
    && multiset(b.executed)[id] == multiset(a.executed)[id]
  }

  lemma ElsewhereIsHarmless(a: Agent, s: Step, thread: nat)
    requires Exclusive(a) && thread in a.threads && Elsewhere(s, thread)
    ensures Undisturbed(a, Advance(a, s), thread)
  {
    hide NoRepeats, EntrySound;
    var id := a.threads[thread].id;
    assert Owns(a, a.threads[thread]);
    if s.Executes? && AtStage(a, s.thread, HasBegun) {
      assert a.threads[s.thread].id != id;
      assert multiset(a.executed + [a.threads[s.thread].id]) == multiset(a.executed) + multiset{a.threads[s.thread].id};
    }
  }

  lemma {:induction false} OthersAreHarmless(a: Agent, steps: seq<Step>, thread: nat)
    requires Exclusive(a) && thread in a.threads && forall i :: 0 <= i < |steps| ==> Elsewhere(steps[i], thread)
    ensures Exclusive(RunFrom(a, steps)) && Undisturbed(a, RunFrom(a, steps), thread)
  {
    hide Exclusive, Advance;
    if steps == [] {
      assert Owns(a, a.threads[thread]) by { ThreadOwns(a, thread); }
    } else {
      var before := RunFrom(a, steps[..|steps| - 1]);
      OthersAreHarmless(a, steps[..|steps| - 1], thread);
      ElsewhereIsHarmless(before, steps[|steps| - 1], thread);
      AdvanceIsExclusive(before, steps[|steps| - 1]);
    }
  }

  lemma ThreadOwns(a: Agent, thread: nat)
    requires Exclusive(a) && thread in a.threads
    ensures Owns(a, a.threads[thread])
  {
  }

  /** What a thread does for a new command, with whatever the others do in between. */
  ghost function Course(thread: nat, id: string, report: Report, between: seq<seq<Step>>): seq<Step>
    requires |between| == 4
  {
    [Deliver(thread, id)] + between[0] + [Begins(thread)] + between[1] + [Executes(thread)] + between[2]
    + [Returns(thread, report)] + between[3] + [Finishes(thread)]
  }

  lemma StepThenOthers(a: Agent, s: Step, steps: seq<Step>)
    ensures RunFrom(a, [s] + steps) == RunFrom(Advance(a, s), steps)
    decreases |steps|
  {
    hide Advance;
    if steps == [] {
      assert [s] + steps == [s] && [s][..0] == [];
    } else {
      assert ([s] + steps)[..|steps|] == [s] + steps[..|steps| - 1];
      StepThenOthers(a, s, steps[..|steps| - 1]);
    }
  }

  lemma {:induction false} RunsJoin(a: Agent, first: seq<Step>, more: seq<Step>)
    ensures RunFrom(a, first + more) == RunFrom(RunFrom(a, first), more)
    decreases |more|
  {
    hide Advance;
    if more == [] {
      assert first + more == first;
    } else {
      assert (first + more)[..|first + more| - 1] == first + more[..|more| - 1];
      RunsJoin(a, first, more[..|more| - 1]);
    }
  }

  /** Where the thread stands with its command, which was executed so many times. */
  ghost predicate Stands(a: Agent, thread: nat, id: string, stage: Stage, phase: Phase, times: nat) {
    && thread in a.threads && a.threads[thread] == Thread(id, stage)
    && id in a.journal && a.journal[id] == Entry(phase, None, false) && multiset(a.executed)[id] == times
  }

  /** The thread's next step, after which the others have their turn. */
  lemma ThreadThenOthers(a: Agent, s: Step, others: seq<Step>, thread: nat, id: string, stage: Stage, phase: Phase,
                         times: nat)
    requires Exclusive(a) && Stands(Advance(a, s), thread, id, stage, phase, times)
    requires forall i :: 0 <= i < |others| ==> Elsewhere(others[i], thread)
    ensures var b := RunFrom(a, [s] + others);
      Exclusive(b) && Stands(b, thread, id, stage, phase, times)
  {
    hide Exclusive, Advance;
    StepThenOthers(a, s, others);
    AdvanceIsExclusive(a, s);
    OthersAreHarmless(Advance(a, s), others, thread);
  }

  lemma ThreadMovesOn(a: Agent, thread: nat, id: string, report: Report)
    requires report.claim.Ended? && report.commandId == id
    ensures Stands(a, thread, id, HasClaim, Received, 0) ==>
              Stands(Advance(a, Begins(thread)), thread, id, HasBegun, Running, 0)
    ensures Stands(a, thread, id, HasBegun, Running, 0) ==>
              Stands(Advance(a, Executes(thread)), thread, id, InExecutor, Running, 1)
    ensures Stands(a, thread, id, InExecutor, Running, 1) ==>
              Stands(Advance(a, Returns(thread, report)), thread, id, HasReport(report), Running, 1)
    ensures Stands(a, thread, id, HasReport(report), Running, 1) ==>
              var b := Advance(a, Finishes(thread));
              && thread !in b.threads && multiset(b.executed)[id] == 1
              && id in b.journal && b.journal[id] == Entry(Closed(report.claim.end), Some(report), false)
  {
    assert multiset(a.executed + [id]) == multiset(a.executed) + multiset{id};
  }

  /** In every reachable state a command that is not in the journal is claimed by the thread it is delivered to,
      executed once, and journalled with the very report the executor returned, whatever other threads do
      meanwhile, as long as the process lives. */
  lemma NewCommandIsExecuted(steps: seq<Step>, thread: nat, id: string, report: Report, between: seq<seq<Step>>)
    requires var a := RunFrom(NEW_AGENT, steps); thread !in a.threads && id !in a.journal
    requires report.claim.Ended? && report.commandId == id && |between| == 4
    requires forall k, i :: 0 <= k < 4 && 0 <= i < |between[k]| ==> Elsewhere(between[k][i], thread)
    ensures var a := RunFrom(NEW_AGENT, steps);
            var b := RunFrom(a, Course(thread, id, report, between));
      && multiset(a.executed)[id] == 0 && multiset(b.executed)[id] == 1
      && id in b.journal && b.journal[id] == Entry(Closed(report.claim.end), Some(report), false)
      && thread !in b.threads
  {
    var a := RunFrom(NEW_AGENT, steps);
    RunIsExclusive(NEW_AGENT, steps);
    NotJournalledIsNotExecuted(a, id);
    hide Exclusive, RunFrom, Advance, Elsewhere;
    var a1 := RunFrom(a, [Deliver(thread, id)] + between[0]);
    var a2 := RunFrom(a1, [Begins(thread)] + between[1]);
    var a3 := RunFrom(a2, [Executes(thread)] + between[2]);
    var a4 := RunFrom(a3, [Returns(thread, report)] + between[3]);
    NewCommandIsClaimed(a, thread, id);
    ThreadThenOthers(a, Deliver(thread, id), between[0], thread, id, HasClaim, Received, 0);
    ThreadMovesOn(a1, thread, id, report);
    ThreadThenOthers(a1, Begins(thread), between[1], thread, id, HasBegun, Running, 0);
    ThreadMovesOn(a2, thread, id, report);
    ThreadThenOthers(a2, Executes(thread), between[2], thread, id, InExecutor, Running, 1);
    ThreadMovesOn(a3, thread, id, report);
    ThreadThenOthers(a3, Returns(thread, report), between[3], thread, id, HasReport(report), Running, 1);
    ThreadMovesOn(a4, thread, id, report);
    CourseIs(a, thread, id, report, between);
  }

  lemma NewCommandIsClaimed(a: Agent, thread: nat, id: string)
    requires thread !in a.threads && id !in a.journal && multiset(a.executed)[id] == 0
    ensures Stands(Advance(a, Deliver(thread, id)), thread, id, HasClaim, Received, 0)
  {
  }

  lemma CourseIs(a: Agent, thread: nat, id: string, report: Report, between: seq<seq<Step>>)
    requires |between| == 4
    ensures var a1 := RunFrom(a, [Deliver(thread, id)] + between[0]);
            var a2 := RunFrom(a1, [Begins(thread)] + between[1]);
            var a3 := RunFrom(a2, [Executes(thread)] + between[2]);
            var a4 := RunFrom(a3, [Returns(thread, report)] + between[3]);
      RunFrom(a, Course(thread, id, report, between)) == Advance(a4, Finishes(thread))
  {
    hide Advance;
    var s1, s2 := [Deliver(thread, id)] + between[0], [Begins(thread)] + between[1];
    var s3, s4 := [Executes(thread)] + between[2], [Returns(thread, report)] + between[3];
    RunsJoin(a, s1, s2);
    RunsJoin(a, s1 + s2, s3);
    RunsJoin(a, s1 + s2 + s3, s4);
    var all := s1 + s2 + s3 + s4 + [Finishes(thread)];
    assert Course(thread, id, report, between) == all;
    assert all[..|all| - 1] == s1 + s2 + s3 + s4;
  }

  lemma NotJournalledIsNotExecuted(a: Agent, id: string)
    requires Exclusive(a) && id !in a.journal
    ensures multiset(a.executed)[id] == 0
  {
  }
}
