/**
The sliding-window correlator, and its rebuild from completed events before each event is processed.
*/
module Correlation {

  /** The facts of an event that the correlator reads. `user` and `destination` are "" where absent;
      `failed` and `succeeded` say which words its rule description contains. */
  datatype Event = Event(
    agent: string, user: string, time: int, authentication: bool, failed: bool, succeeded: bool,
    powershell: bool, destination: string)
  {
    predicate FailedLogin() { authentication && failed }
    predicate Login() { authentication && !failed && succeeded }
  }

  datatype Finding =
    | AuthSequence(agent: string, user: string, failures: nat, time: int)
    | ExecThenNetwork(agent: string, destination: string, time: int)

  function Key(e: Event): string {
    e.agent + ":" + (if e.user == "" then "unknown" else e.user)
  }

  function Since(events: seq<Event>, cutoff: int): seq<Event> {
    if events == [] then []
    else (if events[0].time >= cutoff then [events[0]] else []) + Since(events[1..], cutoff)
  }

  function Recent(times: seq<int>, cutoff: int): seq<int> {
    if times == [] then []
    else (if times[0] >= cutoff then [times[0]] else []) + Recent(times[1..], cutoff)
  }

  // ---------------------------------------------------------------- the engine

  datatype Memory = Memory(buffers: map<string, seq<Event>>, failures: map<string, seq<int>>)

  const EMPTY := Memory(map[], map[])

  function BufferOf(m: Memory, agent: string): seq<Event> {
    if agent in m.buffers then m.buffers[agent] else []
  }

  function FailuresOf(m: Memory, key: string): seq<int> {
    if key in m.failures then m.failures[key] else []
  }

  predicate HasPowershell(events: seq<Event>) {
    exists i :: 0 <= i < |events| && events[i].powershell
  }

  /** The first rule: three recent failures before a successful login. */
  function LoginStep(failures: map<string, seq<int>>, e: Event, window: nat): (map<string, seq<int>>, seq<Finding>) {
    var key := Key(e);
    var tracked := if key in failures then failures[key] else [];
    var recent := Recent(tracked, e.time - window);
    if e.FailedLogin() then (failures[key := tracked + [e.time]], [])
    else if e.Login() && |recent| >= 3 then
      (failures[key := []], [AuthSequence(e.agent, e.user, |recent|, e.time)])
    else (failures, [])
  }

  /** One call of `process_event`. */
  function Step(m: Memory, e: Event, window: nat): (Memory, seq<Finding>) {
    var buffer := Since(BufferOf(m, e.agent) + [e], e.time - window);
    var login := LoginStep(m.failures, e, window);
    (Memory(m.buffers[e.agent := buffer], login.0),
     login.1 + (if HasPowershell(buffer) && e.destination != ""
                then [ExecThenNetwork(e.agent, e.destination, e.time)] else []))
  }

  class CorrelationEngine {
    const window: nat
    var buffers: map<string, seq<Event>>
    var failedLogins: map<string, seq<int>>

    constructor (window: nat)
      ensures this.window == window && State() == EMPTY
    {
      this.window := window;
      buffers, failedLogins := map[], map[];
    }

    ghost function State(): Memory
      reads this
    { Memory(buffers, failedLogins) }

    method PruneBuffer(agent: string, now: int)
      modifies this`buffers
      ensures buffers == (if agent in old(buffers) then old(buffers)[agent := Since(old(buffers)[agent], now - window)]
                          else old(buffers))
    {
      if agent in buffers {
        var events := buffers[agent];
        var kept := [];
        for i := 0 to |events|
          invariant buffers == old(buffers)
          invariant kept + Since(events[i..], now - window) == Since(events, now - window)
        {
          assert events[i..][1..] == events[i + 1..];
          if events[i].time >= now - window {
            kept := kept + [events[i]];
          }
        }
        assert events[|events|..] == [];
        assert kept == Since(events, now - window);
        buffers := buffers[agent := kept];
      }
    }

    method CheckLogins(e: Event) returns (findings: seq<Finding>)
      modifies this`failedLogins
      ensures (failedLogins, findings) == LoginStep(old(failedLogins), e, window)
    {
      findings := [];
      if e.authentication {
        var key := Key(e);
        if e.failed {
          if key !in failedLogins {
            failedLogins := failedLogins[key := []];
          }
          failedLogins := failedLogins[key := failedLogins[key] + [e.time]];
        } else if e.succeeded {
          var recent := Recent(if key in failedLogins then failedLogins[key] else [], e.time - window);
          if |recent| >= 3 {
            findings := findings + [AuthSequence(e.agent, e.user, |recent|, e.time)];
            failedLogins := failedLogins[key := []];
          }
        }
      }
      assert failedLogins == LoginStep(old(failedLogins), e, window).0;
      assert findings == LoginStep(old(failedLogins), e, window).1;
    }

    method ProcessEvent(e: Event) returns (findings: seq<Finding>)
      modifies this`buffers, this`failedLogins
      ensures (State(), findings) == Step(old(State()), e, window)
    {
      hide LoginStep, Since;
      if e.agent !in buffers {
        buffers := buffers[e.agent := []];
      }
      buffers := buffers[e.agent := buffers[e.agent] + [e]];
      PruneBuffer(e.agent, e.time);
      assert buffers == Step(old(State()), e, window).0.buffers;
      findings := CheckLogins(e);
      if HasPowershell(buffers[e.agent]) && e.destination != "" {
        findings := findings + [ExecThenNetwork(e.agent, e.destination, e.time)];
      }
      assert findings == Step(old(State()), e, window).1;
    }
  }

  function Replay(h: seq<Event>, window: nat): Memory {
    if h == [] then EMPTY else Step(Replay(h[..|h| - 1], window), h[|h| - 1], window).0
  }

  // ---------------------------------------------------------------- the full-history specification

  ghost predicate OfOneAgent(h: seq<Event>, agent: string) {
    forall i :: 0 <= i < |h| ==> h[i].agent == agent
  }

  ghost predicate Ordered(h: seq<Event>) {
    forall i, j :: 0 <= i < j < |h| ==> h[i].time <= h[j].time
  }

  /** The user of an event is this one; events without a user count as of the user called unknown. */
  ghost predicate SameUser(a: string, b: string) {
    a == b || (a in ["", "unknown"] && b in ["", "unknown"])
  }

  /** How many failed logins of a user there are from a position on, not before a moment. */
  ghost function FailuresSince(h: seq<Event>, from: nat, user: string, moment: int): nat {
    if |h| <= from then 0
    else
      var e := h[|h| - 1];
      FailuresSince(h[..|h| - 1], from, user, moment)
      + (if SameUser(e.user, user) && e.authentication && e.failed && e.time >= moment then 1 else 0)
  }

  /** The position just behind the last authentication finding for a user. */
  ghost function LastFinding(h: seq<Event>, user: string, window: nat): nat
    decreases |h|, 0
  {
    if h == [] then 0
    else if SameUser(h[|h| - 1].user, user) && AuthFires(h[..|h| - 1], h[|h| - 1], window) then |h|
    else LastFinding(h[..|h| - 1], user, window)
  }

  /** The failures in the window of the event that follow the last finding for its user. */
  ghost function FailuresBefore(h: seq<Event>, e: Event, window: nat): nat
    decreases |h|, 1
  {
    FailuresSince(h, LastFinding(h, e.user, window), e.user, e.time - window)
  }

  /** A successful login after at least three such failures. */
  ghost predicate AuthFires(h: seq<Event>, e: Event, window: nat)
    decreases |h|, 2
  {
    e.authentication && !e.failed && e.succeeded && FailuresBefore(h, e, window) >= 3
  }

  /** Some event with PowerShell, the connection's own included, is in the connection's window. */
  ghost predicate ExecFires(h: seq<Event>, e: Event, window: nat) {
    e.destination != "" && exists i :: 0 <= i <= |h| && (h + [e])[i].powershell && (h + [e])[i].time >= e.time - window
  }

  /** The same without an order of arrival: the event is in the window of everything that came after it. */
  ghost predicate ExecFiresUnordered(h: seq<Event>, e: Event, window: nat) {
    e.destination != "" && exists i :: 0 <= i <= |h| && (h + [e])[i].powershell && Survives(h + [e], i, window)
  }

  ghost predicate Survives(h: seq<Event>, i: nat, window: nat)
    requires i < |h|
  {
    forall j :: i <= j < |h| ==> h[i].time >= h[j].time - window
  }

  ghost function Expected(h: seq<Event>, e: Event, exec: bool, window: nat): seq<Finding> {
    (if AuthFires(h, e, window) then [AuthSequence(e.agent, e.user, FailuresBefore(h, e, window), e.time)] else [])
    + (if exec then [ExecThenNetwork(e.agent, e.destination, e.time)] else [])
  }

  // ---------------------------------------------------------------- what the engine keeps under a key

  /** The failed logins under a key from a position on. */
  ghost function FailureTimes(h: seq<Event>, from: nat, key: string): seq<int> {
    if |h| <= from then []
    else FailureTimes(h[..|h| - 1], from, key)
         + (if h[|h| - 1].FailedLogin() && Key(h[|h| - 1]) == key then [h[|h| - 1].time] else [])
  }

  /** The position just behind the last authentication finding under a key. */
  ghost function AfterLastAuth(h: seq<Event>, key: string, window: nat): nat {
    if h == [] then 0
    else
      var before, last := h[..|h| - 1], h[|h| - 1];
      if Key(last) == key && last.Login()
         && |Recent(FailureTimes(before, AfterLastAuth(before, key, window), key), last.time - window)| >= 3
      then |h|
      else AfterLastAuth(before, key, window)
  }

  ghost function RecentFailures(h: seq<Event>, e: Event, window: nat): seq<int> {
    Recent(FailureTimes(h, AfterLastAuth(h, Key(e), window), Key(e)), e.time - window)
  }

  /** Events of one agent have one key exactly when they are of the same user. */
  lemma KeysTellUsersApart(a: Event, b: Event)
    requires a.agent == b.agent
    ensures Key(a) == Key(b) <==> SameUser(a.user, b.user)
  {
    var x, y := if a.user == "" then "unknown" else a.user, if b.user == "" then "unknown" else b.user;
    assert Key(a)[|a.agent| + 1..] == x && Key(b)[|b.agent| + 1..] == y;
  }

  lemma {:induction false} CountsAgree(h: seq<Event>, from: nat, e: Event, moment: int)
    requires OfOneAgent(h, e.agent)
    ensures |Recent(FailureTimes(h, from, Key(e)), moment)| == FailuresSince(h, from, e.user, moment)
  {
    hide Key, Recent, SameUser;
    if |h| <= from {
      NoTimes(moment, []);
    } else {
      var before, last := h[..|h| - 1], h[|h| - 1];
      CountsAgree(before, from, e, moment);
      KeysTellUsersApart(last, e);
      RecentSplits(FailureTimes(before, from, Key(e)), FailureOf(last, Key(e)), moment);
      OneTime(last.time, moment);
      NoTimes(moment, []);
    }
  }

  lemma OneTime(time: int, cutoff: int)
    ensures |Recent([time], cutoff)| == if time >= cutoff then 1 else 0
  {
    assert [time][1..] == [];
  }

  lemma {:induction false} PositionsAgree(h: seq<Event>, e: Event, window: nat)
    requires OfOneAgent(h, e.agent)
    ensures AfterLastAuth(h, Key(e), window) == LastFinding(h, e.user, window)
    decreases |h|
  {
    hide Key, Recent, SameUser, FailureTimes, FailuresSince;
    if h != [] {
      var before, last := h[..|h| - 1], h[|h| - 1];
      PositionsAgree(before, e, window);
      KeysTellUsersApart(last, e);
      LastPosition(h, Key(e), window);
      if SameUser(last.user, e.user) {
        PositionsAgree(before, last, window);
        CountsAgree(before, LastFinding(before, last.user, window), last, last.time - window);
        LoginFires(before, last, window);
      }
    }
  }

  lemma LoginFires(h: seq<Event>, e: Event, window: nat)
    ensures AuthFires(h, e, window) <==>
              e.Login() && FailuresSince(h, LastFinding(h, e.user, window), e.user, e.time - window) >= 3
  {
  }

  lemma RecentAreCounted(h: seq<Event>, e: Event, window: nat)
    requires OfOneAgent(h, e.agent)
    ensures |RecentFailures(h, e, window)| == FailuresBefore(h, e, window)
  {
    PositionsAgree(h, e, window);
    CountsAgree(h, LastFinding(h, e.user, window), e, e.time - window);
  }

  // ---------------------------------------------------------------- refinement

  lemma {:induction false} SinceAt(events: seq<Event>, cutoff: int)
    ensures forall x :: x in Since(events, cutoff) <==> x in events && x.time >= cutoff
  {
    if events == [] {
    } else {
      SinceAt(events[1..], cutoff);
      assert forall x :: x in events <==> x == events[0] || x in events[1..];
    }
  }

  lemma {:induction false} FailuresAreTracked(h: seq<Event>, key: string, window: nat)
    ensures FailuresOf(Replay(h, window), key) == FailureTimes(h, AfterLastAuth(h, key, window), key)
  {
    if h == [] {
    } else {
      var before, last := h[..|h| - 1], h[|h| - 1];
      FailuresAreTracked(before, key, window);
      FailuresAreTracked(before, Key(last), window);
      PositionIsBounded(before, key, window);
    }
  }

  lemma {:induction false} PositionIsBounded(h: seq<Event>, key: string, window: nat)
    ensures AfterLastAuth(h, key, window) <= |h|
  {
    if h != [] {
      PositionIsBounded(h[..|h| - 1], key, window);
    }
  }

  lemma SurvivalIsStepwise(h: seq<Event>, i: nat, window: nat)
    requires i < |h|
    ensures Survives(h, i, window) <==>
              h[i].time >= h[|h| - 1].time - window && (i < |h| - 1 ==> Survives(h[..|h| - 1], i, window))
  {
  }

  lemma BufferAfter(h: seq<Event>, agent: string, window: nat)
    requires h != [] && h[|h| - 1].agent == agent
    ensures BufferOf(Replay(h, window), agent)
         == Since(BufferOf(Replay(h[..|h| - 1], window), agent) + [h[|h| - 1]], h[|h| - 1].time - window)
  {
  }

  /** The buffer holds exactly the events that are in the window of every later event. */
  lemma {:induction false} BufferIsTracked(h: seq<Event>, agent: string, window: nat, x: Event)
    requires OfOneAgent(h, agent)
    ensures x in BufferOf(Replay(h, window), agent) <==> Survivor(h, x, window)
  {
    hide Replay, Survivor;
    if h == [] {
      NothingYet(agent, window, x);
    } else {
      var before, last := h[..|h| - 1], h[|h| - 1];
      BufferIsTracked(before, agent, window, x);
      BufferAfter(h, agent, window);
      SinceAt(BufferOf(Replay(before, window), agent) + [last], last.time - window);
      SurvivorIsStepwise(h, x, window);
    }
  }

  lemma NothingYet(agent: string, window: nat, x: Event)
    ensures BufferOf(Replay([], window), agent) == [] && !Survivor([], x, window)
  {
  }

  ghost predicate Survivor(h: seq<Event>, x: Event, window: nat) {
    exists i :: 0 <= i < |h| && h[i] == x && Survives(h, i, window)
  }

  lemma SurvivorIsStepwise(h: seq<Event>, x: Event, window: nat)
    requires h != []
    ensures var before, last := h[..|h| - 1], h[|h| - 1];
      Survivor(h, x, window) <==> x.time >= last.time - window && (x == last || Survivor(before, x, window))
  {
    hide Survives;
    var before, last := h[..|h| - 1], h[|h| - 1];
    if i :| 0 <= i < |h| && h[i] == x && Survives(h, i, window) {
      SurvivalIsStepwise(h, i, window);
      assert i < |before| ==> before[i] == x;
    }
    if x.time >= last.time - window {
      if x == last {
        SurvivalIsStepwise(h, |before|, window);
        assert h[|before|] == x;
      } else if i :| 0 <= i < |before| && before[i] == x && Survives(before, i, window) {
        SurvivalIsStepwise(h, i, window);
        assert h[i] == x;
      }
    }
  }

  lemma ExecutionIsTracked(h: seq<Event>, e: Event, window: nat)
    requires OfOneAgent(h, e.agent)
    ensures HasPowershell(Since(BufferOf(Replay(h, window), e.agent) + [e], e.time - window)) && e.destination != ""
       <==> ExecFiresUnordered(h, e, window)
  {
    hide Replay, Survives;
    var all := h + [e];
    assert all[..|all| - 1] == h;
    BufferAfter(all, e.agent, window);
    var buffer := BufferOf(Replay(all, window), e.agent);
    if HasPowershell(buffer) {
      var i :| 0 <= i < |buffer| && buffer[i].powershell;
      BufferIsTracked(all, e.agent, window, buffer[i]);
    }
    if i :| 0 <= i <= |h| && all[i].powershell && Survives(all, i, window) {
      BufferIsTracked(all, e.agent, window, all[i]);
    }
  }

  /** On any arrival order of one agent's events: the authentication rule is that of the full history,
      the execution rule asks for an event in the window of everything since. */
  lemma FindingsOnAnyOrder(h: seq<Event>, e: Event, window: nat)
    requires OfOneAgent(h, e.agent)
    ensures Step(Replay(h, window), e, window).1 == Expected(h, e, ExecFiresUnordered(h, e, window), window)
  {
    hide Replay, Survives, Since, Recent, FailureTimes, AfterLastAuth, FailuresBefore;
    FailuresAreTracked(h, Key(e), window);
    RecentAreCounted(h, e, window);
    ExecutionIsTracked(h, e, window);
  }

  /** The events of one user. */
  ghost function OnlyOf(h: seq<Event>, user: string): seq<Event> {
    if h == [] then []
    else
      var e := h[|h| - 1];
      OnlyOf(h[..|h| - 1], user)
      + (if SameUser(e.user, user) then [e] else [])
  }

  /** A failure list after an event under its key. */
  ghost function NextFailures(tracked: seq<int>, e: Event, window: nat): seq<int> {
    if e.FailedLogin() then tracked + [e.time]
    else if e.Login() && |Recent(tracked, e.time - window)| >= 3 then []
    else tracked
  }

  lemma StepKeepsOtherKeys(m: Memory, e: Event, key: string, window: nat)
    ensures FailuresOf(Step(m, e, window).0, key)
         == (if Key(e) == key then NextFailures(FailuresOf(m, key), e, window) else FailuresOf(m, key))
  {
    hide Recent, Since;
  }

  lemma {:induction false} OthersLeaveNoFailures(h: seq<Event>, e: Event, window: nat)
    requires OfOneAgent(h, e.agent)
    ensures FailuresOf(Replay(h, window), Key(e)) == FailuresOf(Replay(OnlyOf(h, e.user), window), Key(e))
  {
    hide Key, Step, NextFailures, FailuresOf;
    if h != [] {
      var before, last := h[..|h| - 1], h[|h| - 1];
      OthersLeaveNoFailures(before, e, window);
      KeysTellUsersApart(last, e);
      var mine := OnlyOf(before, e.user);
      StepKeepsOtherKeys(Replay(before, window), last, Key(e), window);
      if SameUser(last.user, e.user) {
        assert OnlyOf(h, e.user)[..|mine|] == mine;
        StepKeepsOtherKeys(Replay(mine, window), last, Key(e), window);
      } else {
        assert OnlyOf(h, e.user) == mine;
      }
    }
  }

  /** What other users do has no influence on the authentication findings for a user. */
  lemma OtherUsersDoNotMatter(h: seq<Event>, e: Event, window: nat, f: Finding)
    requires OfOneAgent(h, e.agent) && f.AuthSequence?
    ensures f in Step(Replay(h, window), e, window).1 <==> f in Step(Replay(OnlyOf(h, e.user), window), e, window).1
  {
    hide Replay, Since;
    OthersLeaveNoFailures(h, e, window);
  }

  /** On timestamp order the pruned buffer and the uncleaned failure lists lose nothing. */
  lemma CorrelationRefinesHistory(h: seq<Event>, e: Event, window: nat)
    requires OfOneAgent(h, e.agent) && Ordered(h + [e])
    ensures Step(Replay(h, window), e, window).1 == Expected(h, e, ExecFires(h, e, window), window)
  {
    hide Replay, Step, Expected;
    FindingsOnAnyOrder(h, e, window);
    var all := h + [e];
    assert all[|h|] == e;
    forall i | 0 <= i <= |h|
      ensures Survives(all, i, window) <==> all[i].time >= e.time - window
    {
    }
  }

  /** A late event forgets what is in the window of the next: the execution rule needs the order of arrival. */
  lemma OutOfOrderLosesAFinding(agent: string, window: nat)
    ensures var shell := Event(agent, "", 0, false, false, false, true, "");
            var late := Event(agent, "", window + 1, false, false, false, false, "");
            var connection := Event(agent, "", 0, false, false, false, false, "198.51.100.45");
      ExecFires([shell, late], connection, window) && Step(Replay([shell, late], window), connection, window).1 == []
  {
    var shell := Event(agent, "", 0, false, false, false, true, "");
    var late := Event(agent, "", window + 1, false, false, false, false, "");
    var connection := Event(agent, "", 0, false, false, false, false, "198.51.100.45");
    var h := [shell, late];
    hide Step, Replay, FailuresBefore;
    FindingsOnAnyOrder(h, connection, window);
    var all := h + [connection];
    assert all[0] == shell && all[1] == late && all[2] == connection;
    assert !Survives(all, 0, window);
  }

  // ---------------------------------------------------------------- replaying the newest events only

  const REBUILD_LIMIT: nat := 1000

  /** The newest completed events, oldest first. */
  function Newest(h: seq<Event>, limit: nat): seq<Event> {
    if |h| <= limit then h else h[|h| - limit..]
  }

  /** The failure an event adds, if any. */
  ghost function FailureOf(e: Event, key: string): seq<int> {
    if e.FailedLogin() && Key(e) == key then [e.time] else []
  }

  lemma {:induction false} OldFailuresAreNotRecent(p: seq<Event>, k: seq<Event>, from: nat, key: string, cutoff: int)
    requires forall x :: x in p ==> x.time < cutoff
    requires from <= |p|
    ensures Recent(FailureTimes(p + k, from, key), cutoff) == Recent(FailureTimes(k, 0, key), cutoff)
  {
    if k == [] {
      assert p + k == p;
      NoneIsRecent(p, from, key, cutoff);
    } else {
      hide Recent, FailureTimes;
      var before, last := k[..|k| - 1], k[|k| - 1];
      var all := p + k;
      assert all[..|all| - 1] == p + before && all[|all| - 1] == last;
      OldFailuresAreNotRecent(p, before, from, key, cutoff);
      LastFailure(all, from, key);
      LastFailure(k, 0, key);
      RecentSplits(FailureTimes(p + before, from, key), FailureOf(last, key), cutoff);
      RecentSplits(FailureTimes(before, 0, key), FailureOf(last, key), cutoff);
    }
  }

  lemma LastFailure(h: seq<Event>, from: nat, key: string)
    requires from < |h|
    ensures FailureTimes(h, from, key) == FailureTimes(h[..|h| - 1], from, key) + FailureOf(h[|h| - 1], key)
  {
  }

  lemma {:induction false} NoneIsRecent(p: seq<Event>, from: nat, key: string, cutoff: int)
    requires forall x :: x in p ==> x.time < cutoff
    ensures Recent(FailureTimes(p, from, key), cutoff) == []
  {
    if |p| > from {
      var before, last := p[..|p| - 1], p[|p| - 1];
      assert last in p;
      NoneIsRecent(before, from, key, cutoff);
      RecentSplits(FailureTimes(before, from, key), FailureOf(last, key), cutoff);
      assert Recent([last.time], cutoff) == [] by { assert [last.time][1..] == []; }
      assert FailureTimes(p, from, key) == FailureTimes(before, from, key) + FailureOf(last, key);
    }
  }

  lemma {:induction false} RecentSplits(a: seq<int>, b: seq<int>, cutoff: int)
    ensures Recent(a + b, cutoff) == Recent(a, cutoff) + Recent(b, cutoff)
  {
    hide Recent;
    if a == [] {
      assert a + b == b;
      NoTimes(cutoff, Recent(b, cutoff));
    } else {
      assert (a + b)[0] == a[0] && (a + b)[1..] == a[1..] + b;
      RecentSplits(a[1..], b, cutoff);
      FirstTime(a, cutoff, Recent(b, cutoff));
      FirstTime(a + b, cutoff, []);
    }
  }

  lemma NoTimes(cutoff: int, rest: seq<int>)
    ensures Recent([], cutoff) + rest == rest
  {
  }

  lemma FirstTime(times: seq<int>, cutoff: int, rest: seq<int>)
    requires times != []
    ensures Recent(times, cutoff) + rest
         == (if times[0] >= cutoff then [times[0]] else []) + (Recent(times[1..], cutoff) + rest)
    ensures Recent(times, cutoff) == (if times[0] >= cutoff then [times[0]] else []) + Recent(times[1..], cutoff)
  {
  }

  lemma {:induction false} FailuresShift(p: seq<Event>, k: seq<Event>, from: nat, key: string)
    ensures FailureTimes(p + k, |p| + from, key) == FailureTimes(k, from, key)
  {
    if k != [] {
      var all := p + k;
      assert all[..|all| - 1] == p + k[..|k| - 1];
      FailuresShift(p, k[..|k| - 1], from, key);
    }
  }

  /** The omitted prefix `p` ends strictly more than one window before the first kept event. */
  ghost predicate Gap(p: seq<Event>, k: seq<Event>, window: nat) {
    k != [] && forall x :: x in p ==> x.time < k[0].time - window
  }

  /** Behind a gap, an omitted prefix moves the last finding only by its length, or not at all. */
  lemma {:induction false} PrefixIsOutOfReach(p: seq<Event>, k: seq<Event>, key: string, window: nat)
    requires Ordered(k) && (k == [] || Gap(p, k, window))
    ensures InReach(AfterLastAuth(p + k, key, window), AfterLastAuth(k, key, window), |p|)
  {
    hide AfterLastAuth, FailureTimes, Recent;
    if k == [] {
      assert p + k == p;
      PositionIsBounded(p, key, window);
      NoPosition(key, window);
    } else {
      PrefixIsOutOfReach(p, k[..|k| - 1], key, window);
      PrefixStaysOutOfReach(p, k, key, window);
    }
  }

  lemma NoPosition(key: string, window: nat)
    ensures AfterLastAuth([], key, window) == 0
  {
  }

  /** How far the last finding is behind in the full history, against the kept one. */
  ghost predicate InReach(full: nat, kept: nat, n: nat) {
    if kept > 0 then full == n + kept else full <= n
  }

  lemma PrefixStaysOutOfReach(p: seq<Event>, k: seq<Event>, key: string, window: nat)
    requires k != [] && Ordered(k) && Gap(p, k, window)
    requires InReach(AfterLastAuth(p + k[..|k| - 1], key, window), AfterLastAuth(k[..|k| - 1], key, window), |p|)
    ensures InReach(AfterLastAuth(p + k, key, window), AfterLastAuth(k, key, window), |p|)
  {
    hide *;
    var before, last := k[..|k| - 1], k[|k| - 1];
    OmittedIsOld(p, k, window);
    RecentFailuresAgree(p, before, key, last.time - window, window);
    LastOfJoined(p, k);
    PositionsMoveTogether(p + before, p + k, k, |p|, key, window);
  }

  lemma OmittedIsOld(p: seq<Event>, k: seq<Event>, window: nat)
    requires k != [] && Ordered(k) && Gap(p, k, window)
    ensures AllBefore(p, k[|k| - 1].time - window)
  {
    assert k[0].time <= k[|k| - 1].time;
  }

  ghost predicate AllBefore(p: seq<Event>, cutoff: int) {
    forall x :: x in p ==> x.time < cutoff
  }

  lemma LastOfJoined(p: seq<Event>, k: seq<Event>)
    requires k != []
    ensures var all := p + k; all[..|all| - 1] == p + k[..|k| - 1] && all[|all| - 1] == k[|k| - 1]
  {
  }

  /** Two histories with the same last event, and the same recent failures before it. */
  lemma PositionsMoveTogether(joined: seq<Event>, all: seq<Event>, k: seq<Event>, n: nat, key: string, window: nat)
    requires k != [] && |all| == n + |k| && all[|all| - 1] == k[|k| - 1] && joined == all[..|all| - 1]
    requires var c := k[..|k| - 1];
             var full, kept := AfterLastAuth(joined, key, window), AfterLastAuth(c, key, window);
             && InReach(full, kept, n)
             && Recent(FailureTimes(joined, full, key), k[|k| - 1].time - window)
                == Recent(FailureTimes(c, kept, key), k[|k| - 1].time - window)
    ensures InReach(AfterLastAuth(all, key, window), AfterLastAuth(k, key, window), n)
  {
    hide AfterLastAuth, FailureTimes, Recent, Key;
    LastPosition(all, key, window);
    LastPosition(k, key, window);
  }

  lemma LastPosition(h: seq<Event>, key: string, window: nat)
    requires h != []
    ensures var before, last := h[..|h| - 1], h[|h| - 1];
      AfterLastAuth(h, key, window) ==
        if Key(last) == key && last.Login()
           && |Recent(FailureTimes(before, AfterLastAuth(before, key, window), key), last.time - window)| >= 3
        then |h|
        else AfterLastAuth(before, key, window)
  {
  }

  lemma RecentFailuresAgree(p: seq<Event>, k: seq<Event>, key: string, cutoff: int, window: nat)
    requires AllBefore(p, cutoff)
    requires InReach(AfterLastAuth(p + k, key, window), AfterLastAuth(k, key, window), |p|)
    ensures Recent(FailureTimes(p + k, AfterLastAuth(p + k, key, window), key), cutoff)
         == Recent(FailureTimes(k, AfterLastAuth(k, key, window), key), cutoff)
  {
    var kept := AfterLastAuth(k, key, window);
    if kept > 0 {
      FailuresShift(p, k, kept, key);
    } else {
      OldFailuresAreNotRecent(p, k, AfterLastAuth(p + k, key, window), key, cutoff);
    }
  }

  /** Replaying the newest completed events gives the next event the findings that replaying all would. */
  lemma NewestReplayIsFaithful(h: seq<Event>, e: Event, limit: nat, window: nat)
    requires OfOneAgent(h, e.agent) && Ordered(h + [e])
    requires |h| <= limit || Gap(h[..|h| - limit], h[|h| - limit..], window)
    ensures Step(Replay(Newest(h, limit), window), e, window).1 == Step(Replay(h, window), e, window).1
  {
    hide Replay, Step, AfterLastAuth, FailureTimes, Recent, ExecFires, FailuresBefore;
    if |h| > limit {
      var p, k := h[..|h| - limit], h[|h| - limit..];
      assert p + k == h && Newest(h, limit) == k;
      SuffixIsOrdered(p, k, e);
      CorrelationRefinesHistory(h, e, window);
      CorrelationRefinesHistory(k, e, window);
      PrefixIsOutOfReach(p, k, Key(e), window);
      RecentFailuresAgree(p, k, Key(e), e.time - window, window);
      RecentAreCounted(h, e, window);
      RecentAreCounted(k, e, window);
      ExecutionIsInTheSuffix(p, k, e, window);
    }
  }

  lemma SuffixIsOrdered(p: seq<Event>, k: seq<Event>, e: Event)
    requires Ordered(p + k + [e])
    ensures Ordered(k) && Ordered(k + [e]) && forall x :: x in k ==> x.time <= e.time
  {
    var all := p + k + [e];
    assert forall i :: 0 <= i < |k| ==> k[i] == (k + [e])[i] == all[|p| + i];
    assert (k + [e])[|k|] == all[|p| + |k|] == e;
  }

  lemma ExecutionIsInTheSuffix(p: seq<Event>, k: seq<Event>, e: Event, window: nat)
    requires Gap(p, k, window) && k[0].time <= e.time
    ensures ExecFires(p + k, e, window) <==> ExecFires(k, e, window)
  {
    var all := p + k + [e];
    assert forall i :: 0 <= i <= |k| ==> (k + [e])[i] == all[|p| + i];
    if ExecFires(p + k, e, window) {
      var i :| 0 <= i <= |p + k| && all[i].powershell && all[i].time >= e.time - window;
      assert forall j :: 0 <= j < |p| ==> all[j] in p;
      assert (k + [e])[i - |p|] == all[i];
    }
  }

  /** `n` times the same event. */
  function Repeated(e: Event, n: nat): (es: seq<Event>)
    ensures |es| == n && forall i :: 0 <= i < n ==> es[i] == e
  {
    seq(n, i => e)
  }

  /** A gap of exactly one window is not enough, whatever the limit: the failures on the edge of the window are
      omitted, and the login that follows them goes unnoticed. */
  lemma RebuildNeedsTheStrictGap(agent: string, user: string, window: nat, limit: nat)
    requires limit >= 1
    ensures var failure := Event(agent, user, 0, true, true, false, false, "");
            var other := Event(agent, user, window, false, false, false, false, "");
            var login := Event(agent, user, window, true, false, true, false, "");
            var h := [failure, failure, failure] + Repeated(other, limit);
      && OfOneAgent(h, agent) && Ordered(h + [login])
      && Step(Replay(h, window), login, window).1 == [AuthSequence(agent, user, 3, window)]
      && Step(Replay(Newest(h, limit), window), login, window).1 == []
  {
    var failure := Event(agent, user, 0, true, true, false, false, "");
    var other := Event(agent, user, window, false, false, false, false, "");
    var login := Event(agent, user, window, true, false, true, false, "");
    var h := [failure, failure, failure] + Repeated(other, limit);
    hide Step, Replay, OfOneAgent, Ordered, Repeated;
    FailuresOnTheEdge(failure, other, login, window, limit);
    assert Newest(h, limit) == Repeated(other, limit);
    OthersAlone(other, login, window, limit);
  }

  lemma EdgeIsOrdered(failure: Event, other: Event, login: Event, limit: nat)
    requires failure.agent == other.agent == login.agent && failure.time <= other.time <= login.time
    ensures var h := [failure, failure, failure] + Repeated(other, limit);
      OfOneAgent(h, login.agent) && Ordered(h + [login])
  {
  }

  lemma NoDestination(h: seq<Event>, e: Event, window: nat)
    ensures e.destination == "" ==> !ExecFiresUnordered(h, e, window)
  {
  }

  lemma FailuresOnTheEdge(failure: Event, other: Event, login: Event, window: nat, limit: nat)
    requires failure == Event(login.agent, login.user, 0, true, true, false, false, "")
    requires other == Event(login.agent, login.user, window, false, false, false, false, "")
    requires login == Event(login.agent, login.user, window, true, false, true, false, "")
    ensures var h := [failure, failure, failure] + Repeated(other, limit);
      && OfOneAgent(h, login.agent) && Ordered(h + [login])
      && Step(Replay(h, window), login, window).1 == [AuthSequence(login.agent, login.user, 3, window)]
  {
    var h := [failure, failure, failure] + Repeated(other, limit);
    ThreeFailures(failure, Key(login), window);
    OthersChangeNothing([failure, failure, failure], other, limit, Key(login), window);
    EdgeIsOrdered(failure, other, login, limit);
    hide OfOneAgent, Ordered, Step, Replay, Recent, FailureTimes, AfterLastAuth, Survives;
    assert RecentFailures(h, login, window) == [0, 0, 0];
    hide Repeated, RecentFailures, ExecFiresUnordered, FailuresBefore;
    RecentAreCounted(h, login, window);
    FindingsOnAnyOrder(h, login, window);
    assert !ExecFiresUnordered(h, login, window) by { NoDestination(h, login, window); }
  }

  lemma OthersAlone(other: Event, login: Event, window: nat, limit: nat)
    requires other == Event(login.agent, login.user, window, false, false, false, false, "")
    requires login == Event(login.agent, login.user, window, true, false, true, false, "")
    ensures Step(Replay(Repeated(other, limit), window), login, window).1 == []
  {
    var kept := Repeated(other, limit);
    assert kept == [] + Repeated(other, limit);
    NothingReplayed(Key(login), window);
    OthersChangeNothing([], other, limit, Key(login), window);
    hide Step, Replay, FailureTimes, AfterLastAuth, FailuresBefore;
    FindingsOnAnyOrder(kept, login, window);
    RecentAreCounted(kept, login, window);
    assert RecentFailures(kept, login, window) == [];
  }

  /** In particular at the limit the manager rebuilds with. */
  lemma ThousandEventsAreNotEnough(agent: string, user: string, window: nat) returns (h: seq<Event>, login: Event)
    ensures |h| == REBUILD_LIMIT + 3 && OfOneAgent(h, login.agent) && Ordered(h + [login])
    ensures Step(Replay(h, window), login, window).1 == [AuthSequence(agent, user, 3, login.time)]
    ensures Step(Replay(Newest(h, REBUILD_LIMIT), window), login, window).1 == []
  {
    var failure := Event(agent, user, 0, true, true, false, false, "");
    var other := Event(agent, user, window, false, false, false, false, "");
    login := Event(agent, user, window, true, false, true, false, "");
    h := [failure, failure, failure] + Repeated(other, REBUILD_LIMIT);
    RebuildNeedsTheStrictGap(agent, user, window, REBUILD_LIMIT);
  }

  lemma NothingReplayed(key: string, window: nat)
    ensures AfterLastAuth([], key, window) == 0 && FailureTimes([], 0, key) == [] && Recent([], 0) == []
  {
  }

  lemma {:induction false} OthersChangeNothing(h: seq<Event>, other: Event, n: nat, key: string, window: nat)
    requires !other.authentication && AfterLastAuth(h, key, window) == 0
    ensures AfterLastAuth(h + Repeated(other, n), key, window) == 0
    ensures FailureTimes(h + Repeated(other, n), 0, key) == FailureTimes(h, 0, key)
  {
    var all := h + Repeated(other, n);
    if n == 0 {
      assert all == h;
    } else {
      assert all[..|all| - 1] == h + Repeated(other, n - 1) && all[|all| - 1] == other;
      OthersChangeNothing(h, other, n - 1, key, window);
    }
  }

  lemma ThreeFailures(failure: Event, key: string, window: nat)
    requires failure.FailedLogin() && Key(failure) == key && failure.time == 0
    ensures var f3 := [failure, failure, failure];
      AfterLastAuth(f3, key, window) == 0 && FailureTimes(f3, 0, key) == [0, 0, 0] && Recent([0, 0, 0], 0) == [0, 0, 0]
  {
    var f1, f2, f3 := [failure], [failure, failure], [failure, failure, failure];
    hide Recent;
    assert f1[..0] == [] && f2[..1] == f1 && f3[..2] == f2;
    assert FailureTimes(f1, 0, key) == [0];
    assert FailureTimes(f2, 0, key) == [0, 0];
    assert AfterLastAuth(f2, key, window) == AfterLastAuth(f1, key, window) == 0;
    ThreeZeros();
  }

  lemma ThreeZeros()
    ensures Recent([0, 0, 0], 0) == [0, 0, 0]
  {
    assert [0, 0, 0][1..] == [0, 0] && [0, 0][1..] == [0] && [0][1..] == [];
    assert Recent([0, 0], 0) == [0, 0];
  }
}
