/**
Risk scores: the in-memory engine, the ledger of rows that outlives it, and the manager's background
decay. Times are seconds and the decay rate is points per minute, both real numbers.
*/
module Risk {
  import opened Options

  datatype Row = Row(time: real, agent: string, previous: int, delta: int, score: int)

  const MIN_SCORE: int := 0
  const MAX_SCORE: int := 100

  function Clamp(x: int): int {
    if x > MAX_SCORE then MAX_SCORE else if x < MIN_SCORE then MIN_SCORE else x
  }

  /** The score is what delta makes of the previous one, cut off at 0 and at 100. */
  ghost predicate AddsUp(row: Row) {
    && (0 <= row.previous + row.delta <= 100 ==> row.score == row.previous + row.delta)
    && (row.previous + row.delta > 100 ==> row.score == 100)
    && (row.previous + row.delta < 0 ==> row.score == 0)
  }

  /** Whole points lost over a stretch of time; Python's `int` truncates, and negative values count as none. */
  function Points(seconds: real, rate: real): nat {
    var x := seconds / 60.0 * rate;
    if x <= 0.0 then 0 else x.Floor
  }

  function Min(a: int, b: int): int { if a < b then a else b }

  class RiskEngine {
    const rate: real
    var scores: map<string, int>
    var lastUpdate: map<string, real>
    var history: map<string, seq<Row>>

    /** Every agent with an update has a history. */
    ghost predicate Valid()
      reads this
    { lastUpdate.Keys <= history.Keys }

    constructor (rate: real)
      ensures Valid() && this.rate == rate && scores == map[] && lastUpdate == map[] && history == map[]
    {
      this.rate := rate;
      scores, lastUpdate, history := map[], map[], map[];
    }

    function Score(agent: string): int
      reads this
    { if agent in scores then scores[agent] else 0 }

    method Restore(agent: string, score: int)
      modifies this`scores
      ensures scores == old(scores)[agent := score]
    {
      scores := scores[agent := score];
    }

    method ApplyDelta(agent: string, delta: int, now: real) returns (row: Row)
      requires Valid()
      modifies this
      ensures Valid()
      ensures row == Row(now, agent, old(Score(agent)), delta, Clamp(old(Score(agent)) + delta)) && AddsUp(row)
      ensures scores == old(scores)[agent := row.score] && lastUpdate == old(lastUpdate)[agent := now]
      ensures history == old(history)[agent := (if agent in old(history) then old(history)[agent] else []) + [row]]
    {
      var previous := Score(agent);
      var score := Clamp(previous + delta);
      scores, lastUpdate := scores[agent := score], lastUpdate[agent := now];
      row := Row(now, agent, previous, delta, score);
      if agent !in history {
        history := history[agent := []];
      }
      history := history[agent := history[agent] + [row]];
      assert history == old(history)[agent := history[agent]];
    }

    method ApplyDecay(agent: string, now: real) returns (row: Option<Row>)
      requires Valid() && rate >= 0.0
      modifies this
      ensures Valid()
      ensures row.Some? <==> agent in old(lastUpdate) && now - old(lastUpdate)[agent] >= 60.0
                             && Points(now - old(lastUpdate)[agent], rate) > 0 && old(Score(agent)) > MIN_SCORE
      ensures row.None? ==> scores == old(scores) && lastUpdate == old(lastUpdate) && history == old(history)
      ensures row.Some? ==>
                var lost := Min(old(Score(agent)) - MIN_SCORE, Points(now - old(lastUpdate)[agent], rate));
                && row.value == Row(now, agent, old(Score(agent)), -lost, old(Score(agent)) - lost)
                && scores == old(scores)[agent := row.value.score] && lastUpdate == old(lastUpdate)[agent := now]
                && history == old(history)[agent := old(history)[agent] + [row.value]]
    {
      if agent !in lastUpdate { return None; }
      var elapsed := now - lastUpdate[agent];
      if elapsed < 60.0 { return None; }
      var amount := Points(elapsed, rate);
      if amount <= 0 { return None; }
      var previous := Score(agent);
      if previous <= MIN_SCORE { return None; }
      var score := if previous - amount < MIN_SCORE then MIN_SCORE else previous - amount;
      scores, lastUpdate := scores[agent := score], lastUpdate[agent := now];
      row := Some(Row(now, agent, previous, score - previous, score));
      history := history[agent := history[agent] + [row.value]];
    }
  }

  // ---------------------------------------------------------------- the ledger

  /** The newest row of an agent: latest timestamp, and latest inserted among equals. */
  function Latest(rows: seq<Row>, agent: string): Option<Row> {
    if rows == [] then None
    else
      var earlier, last := Latest(rows[..|rows| - 1], agent), rows[|rows| - 1];
      if last.agent == agent && (earlier.None? || last.time >= earlier.value.time) then Some(last) else earlier
  }

  function LatestScore(rows: seq<Row>, agent: string): int {
    var latest := Latest(rows, agent);
    if latest.Some? then latest.value.score else 0
  }

  datatype Change = Change(delta: int, time: real)

  /** What happens to the ledger. An attempt is one run of the pipeline over an event: it first puts the stored
      score in place of the one in memory. Whatever its transaction does not commit leaves no row. A tick
      measures the elapsed time, then stamps its row. */
  datatype Action =
    | Attempt(agent: string, changes: seq<Change>, committed: bool)
    | Tick(agent: string, measured: real, stamped: real, critical: bool)

  /** The rows, and the scores the engine object still holds in memory. */
  datatype Store = Store(rows: seq<Row>, memory: map<string, int>)

  /** Deltas applied one by one to the score in memory. */
  function Applied(agent: string, score: int, changes: seq<Change>): seq<Row>
    decreases changes
  {
    if changes == [] then []
    else
      var next := Clamp(score + changes[0].delta);
      [Row(changes[0].time, agent, score, changes[0].delta, next)] + Applied(agent, next, changes[1..])
  }

  function FinalScore(score: int, rows: seq<Row>): int {
    if rows == [] then score else rows[|rows| - 1].score
  }

  function Decrement(latest: Row, measured: real, rate: real): int {
    Min(latest.score, Points(measured - latest.time, rate))
  }

  function Perform(s: Store, a: Action, rate: real): Store {
    match a
    case Attempt(agent, changes, committed) =>
      var restored := s.memory[agent := LatestScore(s.rows, agent)];
      var rows := Applied(agent, restored[agent], changes);
      Store(if committed then s.rows + rows else s.rows, restored[agent := FinalScore(restored[agent], rows)])
    case Tick(agent, measured, stamped, critical) =>
      var latest := Latest(s.rows, agent);
      if latest.None? || critical || Decrement(latest.value, measured, rate) == 0 then s
      else
        var lost := Decrement(latest.value, measured, rate);
        Store(s.rows + [Row(stamped, agent, latest.value.score, -lost, latest.value.score - lost)], s.memory)
  }

  function Run(actions: seq<Action>, rate: real): Store {
    if actions == [] then Store([], map[])
    else Perform(Run(actions[..|actions| - 1], rate), actions[|actions| - 1], rate)
  }

  /** The pipeline's part of an attempt: the stored score replaces the one in memory, then every delta
      is applied to it and its row saved. */
  method RecordAttempt(engine: RiskEngine, rows: seq<Row>, agent: string, changes: seq<Change>)
    returns (added: seq<Row>)
    requires engine.Valid()
    modifies engine
    ensures engine.Valid()
    ensures added == Applied(agent, LatestScore(rows, agent), changes)
    ensures engine.scores == old(engine.scores)[agent := FinalScore(LatestScore(rows, agent), added)]
  {
    hide Applied, LatestScore, Clamp;
    engine.Restore(agent, LatestScore(rows, agent));
    var rest := changes;
    added := [];
    assert added + Applied(agent, engine.Score(agent), rest) == Applied(agent, engine.Score(agent), rest);
    while rest != []
      invariant engine.Valid()
      invariant engine.scores == old(engine.scores)[agent := FinalScore(LatestScore(rows, agent), added)]
      invariant added + Applied(agent, engine.Score(agent), rest) == Applied(agent, LatestScore(rows, agent), changes)
      decreases |rest|
    {
      AppliedUnrolls(agent, engine.Score(agent), rest, added);
      var row := engine.ApplyDelta(agent, rest[0].delta, rest[0].time);
      added, rest := added + [row], rest[1..];
    }
    AppliedEnds(agent, engine.Score(agent), added);
  }

  lemma AppliedUnrolls(agent: string, score: int, changes: seq<Change>, before: seq<Row>)
    requires changes != []
    ensures var next := Clamp(score + changes[0].delta);
      before + Applied(agent, score, changes)
        == (before + [Row(changes[0].time, agent, score, changes[0].delta, next)]) + Applied(agent, next, changes[1..])
  {
  }

  lemma AppliedEnds(agent: string, score: int, before: seq<Row>)
    ensures before + Applied(agent, score, []) == before
  {
  }

  // ---------------------------------------------------------------- the ledger chains

  /** The moments of an action come in order and not before `from`. */
  ghost predicate Timely(a: Action, from: real) {
    match a
    case Attempt(_, changes, _) =>
      && (forall i :: 0 <= i < |changes| ==> changes[i].time >= from)
      && (forall i, j :: 0 <= i < j < |changes| ==> changes[i].time <= changes[j].time)
    case Tick(_, measured, stamped, _) => from <= measured <= stamped
  }

  ghost function EndOf(a: Action, from: real): real {
    match a
    case Attempt(_, changes, _) => if changes == [] then from else changes[|changes| - 1].time
    case Tick(_, _, stamped, _) => stamped
  }

  ghost function ClockAfter(actions: seq<Action>): real {
    if actions == [] then 0.0 else EndOf(actions[|actions| - 1], ClockAfter(actions[..|actions| - 1]))
  }

  /** The manager's clock never runs backwards during the run. */
  ghost predicate ClockAdvances(actions: seq<Action>) {
    actions == [] ||
    (ClockAdvances(actions[..|actions| - 1]) &&
     Timely(actions[|actions| - 1], ClockAfter(actions[..|actions| - 1])))
  }

  /** The score an agent was left with by the rows as inserted. */
  ghost function LeftWith(rows: seq<Row>, agent: string): int {
    if rows == [] then 0
    else if rows[|rows| - 1].agent == agent then rows[|rows| - 1].score
    else LeftWith(rows[..|rows| - 1], agent)
  }

  /** Every row starts where the agent's previous row ended. */
  ghost predicate Linked(rows: seq<Row>) {
    forall i :: 0 <= i < |rows| ==> rows[i].previous == LeftWith(rows[..i], rows[i].agent)
  }

  ghost predicate InRange(rows: seq<Row>) {
    forall i :: 0 <= i < |rows| ==>
      MIN_SCORE <= rows[i].previous <= MAX_SCORE && MIN_SCORE <= rows[i].score <= MAX_SCORE
  }

  ghost predicate Chained(rows: seq<Row>) {
    Linked(rows) && InRange(rows)
  }

  ghost predicate TimedUntil(rows: seq<Row>, now: real) {
    && (forall i :: 0 <= i < |rows| ==> rows[i].time <= now)
    && (forall i, j :: 0 <= i < j < |rows| ==> rows[i].time <= rows[j].time)
  }

  lemma {:induction false} LatestIsLastInserted(rows: seq<Row>, agent: string, now: real)
    requires TimedUntil(rows, now)
    ensures LatestScore(rows, agent) == LeftWith(rows, agent)
    ensures Latest(rows, agent).Some? ==> Latest(rows, agent).value in rows && Latest(rows, agent).value.agent == agent
  {
    if rows != [] {
      LatestIsLastInserted(rows[..|rows| - 1], agent, now);
    }
  }

  lemma {:induction false} LeftInRange(rows: seq<Row>, agent: string)
    requires InRange(rows)
    ensures MIN_SCORE <= LeftWith(rows, agent) <= MAX_SCORE
  {
    if rows != [] {
      LeftInRange(rows[..|rows| - 1], agent);
    }
  }

  lemma ExtendChain(rows: seq<Row>, row: Row, now: real)
    requires Chained(rows) && TimedUntil(rows, now)
    requires row.previous == LeftWith(rows, row.agent) && MIN_SCORE <= row.score <= MAX_SCORE && row.time >= now
    ensures Chained(rows + [row]) && TimedUntil(rows + [row], row.time)
    ensures LeftWith(rows + [row], row.agent) == row.score
  {
    LeftInRange(rows, row.agent);
    var longer := rows + [row];
    assert longer[..|rows|] == rows;
    assert forall i :: 0 <= i < |rows| ==> longer[..i] == rows[..i];
  }

  lemma {:induction false} AppliedExtendsChain(rows: seq<Row>, agent: string, changes: seq<Change>, now: real)
    requires Chained(rows) && TimedUntil(rows, now)
    requires Timely(Attempt(agent, changes, true), now)
    ensures var longer := rows + Applied(agent, LeftWith(rows, agent), changes);
      Chained(longer) && TimedUntil(longer, EndOf(Attempt(agent, changes, true), now))
    decreases changes
  {
    var score := LeftWith(rows, agent);
    if changes == [] {
      assert rows + Applied(agent, score, changes) == rows;
    } else {
      var row := Applied(agent, score, changes)[0];
      LaterChangesAreTimely(agent, changes, now);
      ExtendChain(rows, row, now);
      AppliedSplits(rows, agent, score, changes);
      hide *;
      AppliedExtendsChain(rows + [row], agent, changes[1..], row.time);
    }
  }

  lemma LaterChangesAreTimely(agent: string, changes: seq<Change>, now: real)
    requires changes != [] && Timely(Attempt(agent, changes, true), now)
    ensures changes[0].time >= now && Timely(Attempt(agent, changes[1..], true), changes[0].time)
    ensures EndOf(Attempt(agent, changes[1..], true), changes[0].time) == EndOf(Attempt(agent, changes, true), now)
  {
  }

  lemma AppliedSplits(rows: seq<Row>, agent: string, score: int, changes: seq<Change>)
    requires changes != []
    ensures var row := Applied(agent, score, changes)[0];
      && row.time == changes[0].time && row.agent == agent && row.previous == score
      && MIN_SCORE <= row.score <= MAX_SCORE
      && rows + Applied(agent, score, changes) == (rows + [row]) + Applied(agent, row.score, changes[1..])
  {
    var next := Clamp(score + changes[0].delta);
    var row := Row(changes[0].time, agent, score, changes[0].delta, next);
    AppliedFirst(agent, score, changes);
    hide Applied;
    Reassociate(rows, row, Applied(agent, next, changes[1..]));
  }

  lemma AppliedFirst(agent: string, score: int, changes: seq<Change>)
    requires changes != []
    ensures var next := Clamp(score + changes[0].delta);
      Applied(agent, score, changes)
        == [Row(changes[0].time, agent, score, changes[0].delta, next)] + Applied(agent, next, changes[1..])
  {
  }

  lemma Reassociate(rows: seq<Row>, row: Row, rest: seq<Row>)
    ensures rows + ([row] + rest) == (rows + [row]) + rest
  {
  }

  // ---------------------------------------------------------------- scores stay in range, whatever the clock does

  lemma {:induction false} LatestInRange(rows: seq<Row>, agent: string)
    requires InRange(rows)
    ensures MIN_SCORE <= LatestScore(rows, agent) <= MAX_SCORE
  {
    if rows != [] {
      LatestInRange(rows[..|rows| - 1], agent);
    }
  }

  lemma {:induction false} AppliedInRange(agent: string, score: int, changes: seq<Change>)
    requires MIN_SCORE <= score <= MAX_SCORE
    ensures InRange(Applied(agent, score, changes))
    decreases |changes|
  {
    if changes != [] {
      var next := Clamp(score + changes[0].delta);
      AppliedInRange(agent, next, changes[1..]);
      var rest := Applied(agent, next, changes[1..]);
      assert InRange([Row(changes[0].time, agent, score, changes[0].delta, next)] + rest);
    }
  }

  /** Over every run, with no rows brought in from elsewhere, all scores are between 0 and 100. */
  lemma {:induction false} ScoresStayInRange(actions: seq<Action>, rate: real)
    ensures InRange(Run(actions, rate).rows)
  {
    if actions != [] {
      var before, a := actions[..|actions| - 1], actions[|actions| - 1];
      ScoresStayInRange(before, rate);
      LatestInRange(Run(before, rate).rows, a.agent);
      match a
      case Attempt(agent, changes, _) => AppliedInRange(agent, LatestScore(Run(before, rate).rows, agent), changes);
      case Tick(_, _, _, _) =>
    }
  }

  // ---------------------------------------------------------------- exactly when the ledger chains

  predicate Appends(s: Store, a: Action, rate: real) {
    match a
    case Attempt(_, changes, committed) => committed && changes != []
    case Tick(agent, measured, _, critical) =>
      var latest := Latest(s.rows, agent);
      latest.Some? && !critical && Decrement(latest.value, measured, rate) != 0
  }

  /** The agent's row that was inserted last. */
  ghost function LastInserted(rows: seq<Row>, agent: string): (last: Option<Row>)
    ensures last.Some? ==> last.value.score == LeftWith(rows, agent)
    ensures last.None? ==> LeftWith(rows, agent) == 0
  {
    if rows == [] then None
    else if rows[|rows| - 1].agent == agent then Some(rows[|rows| - 1])
    else LastInserted(rows[..|rows| - 1], agent)
  }

  /** No row of the agent bears a later time than the one inserted last. */
  ghost predicate LastIsNewest(rows: seq<Row>, agent: string) {
    forall row :: row in rows && row.agent == agent ==>
      LastInserted(rows, agent).Some? && row.time <= LastInserted(rows, agent).value.time
  }

  /** The action adds rows while the agent's newest row by time is not the one inserted last and has another score. */
  ghost predicate StartsStale(s: Store, a: Action, rate: real) {
    && Appends(s, a, rate)
    && !LastIsNewest(s.rows, a.agent)
    && Latest(s.rows, a.agent).Some? && LastInserted(s.rows, a.agent).Some?
    && Latest(s.rows, a.agent).value.score != LastInserted(s.rows, a.agent).value.score
  }

  /** What the query for the newest row returns is one of the agent's rows, and none of them is later. */
  lemma {:induction false} LatestIsNewest(rows: seq<Row>, agent: string)
    ensures Latest(rows, agent).None? <==> LastInserted(rows, agent).None?
    ensures Latest(rows, agent).None? ==> forall row :: row in rows ==> row.agent != agent
    ensures Latest(rows, agent).Some? ==>
              forall row :: row in rows && row.agent == agent ==> row.time <= Latest(rows, agent).value.time
  {
    if rows != [] {
      LatestIsNewest(rows[..|rows| - 1], agent);
      assert rows == rows[..|rows| - 1] + [rows[|rows| - 1]];
    }
  }

  /** While the last inserted row is the newest by time, the query returns it. */
  lemma {:induction false} NewestIsReturned(rows: seq<Row>, agent: string)
    requires LastIsNewest(rows, agent)
    ensures Latest(rows, agent) == LastInserted(rows, agent)
  {
    LatestIsNewest(rows, agent);
    if rows != [] {
      var before, last := rows[..|rows| - 1], rows[|rows| - 1];
      assert rows == before + [last];
      LatestIsMember(before, agent);
      if last.agent != agent {
        NewestIsReturned(before, agent);
      }
    }
  }

  lemma {:induction false} LatestIsMember(rows: seq<Row>, agent: string)
    ensures Latest(rows, agent).Some? ==> Latest(rows, agent).value in rows && Latest(rows, agent).value.agent == agent
  {
    if rows != [] {
      LatestIsMember(rows[..|rows| - 1], agent);
    }
  }

  lemma StaleMeansAnotherScore(s: Store, a: Action, rate: real)
    ensures StartsStale(s, a, rate) <==>
              Appends(s, a, rate) && LatestScore(s.rows, a.agent) != LeftWith(s.rows, a.agent)
  {
    LatestIsNewest(s.rows, a.agent);
    if LastIsNewest(s.rows, a.agent) { NewestIsReturned(s.rows, a.agent); }
  }

  lemma {:induction false} AppliedLinks(rows: seq<Row>, agent: string, score: int, changes: seq<Change>)
    requires Linked(rows)
    ensures Linked(rows + Applied(agent, score, changes)) <==> changes == [] || score == LeftWith(rows, agent)
    decreases |changes|
  {
    if changes == [] {
      assert rows + Applied(agent, score, changes) == rows;
    } else {
      var next := Clamp(score + changes[0].delta);
      var row := Row(changes[0].time, agent, score, changes[0].delta, next);
      var rest := Applied(agent, next, changes[1..]);
      assert rows + Applied(agent, score, changes) == rows + [row] + rest;
      OneMoreLink(rows, row);
      if score == LeftWith(rows, agent) {
        AppliedLinks(rows + [row], agent, next, changes[1..]);
      } else {
        PrefixIsLinked(rows + [row], rest);
      }
    }
  }

  lemma OneMoreLink(rows: seq<Row>, row: Row)
    requires Linked(rows)
    ensures Linked(rows + [row]) <==> row.previous == LeftWith(rows, row.agent)
    ensures LeftWith(rows + [row], row.agent) == row.score
  {
    var longer := rows + [row];
    assert longer[..|rows|] == rows && longer[|rows|] == row;
    assert forall i :: 0 <= i < |rows| ==> longer[..i] == rows[..i];
  }

  lemma PrefixIsLinked(rows: seq<Row>, more: seq<Row>)
    ensures Linked(rows + more) ==> Linked(rows)
  {
    assert forall i :: 0 <= i < |rows| ==> (rows + more)[..i] == rows[..i] && (rows + more)[i] == rows[i];
  }

  /** A step keeps the chain exactly when it does not start stale. */
  lemma StepKeepsChain(s: Store, a: Action, rate: real)
    ensures Linked(Perform(s, a, rate).rows) <==> Linked(s.rows) && !StartsStale(s, a, rate)
  {
    StaleMeansAnotherScore(s, a, rate);
    hide Linked, LeftWith, LastIsNewest;
    match a
    case Attempt(agent, changes, committed) =>
      if committed {
        PrefixIsLinked(s.rows, Applied(agent, LatestScore(s.rows, agent), changes));
        if Linked(s.rows) {
          AppliedLinks(s.rows, agent, LatestScore(s.rows, agent), changes);
        }
      }
    case Tick(agent, measured, stamped, critical) =>
      if Appends(s, a, rate) {
        var row := Perform(s, a, rate).rows[|s.rows|];
        PrefixIsLinked(s.rows, [row]);
        if Linked(s.rows) {
          OneMoreLink(s.rows, row);
        }
      }
  }

  ghost predicate NeverStale(actions: seq<Action>, rate: real) {
    actions == [] ||
    (NeverStale(actions[..|actions| - 1], rate)
     && !StartsStale(Run(actions[..|actions| - 1], rate), actions[|actions| - 1], rate))
  }

  /** Over every run the ledger chains if and only if no action adds rows while the newest row of its agent by time
      is not the one inserted last and has another score. */
  lemma {:induction false} LedgerChainsExactly(actions: seq<Action>, rate: real)
    ensures Chained(Run(actions, rate).rows) <==> NeverStale(actions, rate)
  {
    ScoresStayInRange(actions, rate);
    if actions != [] {
      hide Perform, StartsStale, Linked, InRange;
      LedgerChainsExactly(actions[..|actions| - 1], rate);
      ScoresStayInRange(actions[..|actions| - 1], rate);
      StepKeepsChain(Run(actions[..|actions| - 1], rate), actions[|actions| - 1], rate);
    }
  }

  /** A clock that advances is enough: rows are then inserted in the order of their times. */
  lemma {:induction false} LedgerChains(actions: seq<Action>, rate: real)
    requires ClockAdvances(actions)
    ensures Chained(Run(actions, rate).rows) && TimedUntil(Run(actions, rate).rows, ClockAfter(actions))
    ensures NeverStale(actions, rate)
  {
    LedgerChainsExactly(actions, rate);
    if actions == [] {
    } else {
      hide Linked, InRange, LeftWith, Latest, NeverStale, LastIsNewest;
      var before, a := actions[..|actions| - 1], actions[|actions| - 1];
      LedgerChains(before, rate);
      var s, now := Run(before, rate), ClockAfter(before);
      LatestIsLastInserted(s.rows, a.agent, now);
      LeftInRange(s.rows, a.agent);
      match a
      case Attempt(agent, changes, committed) =>
        AppliedExtendsChain(s.rows, agent, changes, now);
        assert forall c :: c in changes ==> c.time >= now;
      case Tick(agent, measured, stamped, critical) =>
        var after := Perform(s, a, rate);
        if after != s {
          ExtendChain(s.rows, after.rows[|s.rows|], now);
        }
    }
  }

  function Committed(actions: seq<Action>): seq<Action> {
    if actions == [] then []
    else
      var last := actions[|actions| - 1];
      Committed(actions[..|actions| - 1]) + (if last.Attempt? && !last.committed then [] else [last])
  }

  lemma RowsIgnoreMemory(s: Store, t: Store, a: Action, rate: real)
    requires s.rows == t.rows
    ensures Perform(s, a, rate).rows == Perform(t, a, rate).rows
    ensures a.Attempt? && !a.committed ==> Perform(s, a, rate).rows == s.rows
  {
  }

  /** A rolled-back attempt leaves a wrong score in memory and no trace in any later row. */
  lemma {:induction false} RollbackLeavesNoTrace(actions: seq<Action>, rate: real)
    ensures Run(actions, rate).rows == Run(Committed(actions), rate).rows
  {
    if actions == [] {
    } else {
      var before, last := actions[..|actions| - 1], actions[|actions| - 1];
      RollbackLeavesNoTrace(before, rate);
      RowsIgnoreMemory(Run(before, rate), Run(Committed(before), rate), last, rate);
      hide Perform;
      if last.Attempt? && !last.committed {
        assert Committed(actions) == Committed(before);
      } else {
        var kept := Committed(before) + [last];
        assert Committed(actions) == kept && kept[..|kept| - 1] == Committed(before);
      }
    }
  }

  lemma SingleChange(s: Store, agent: string, c: Change, rate: real)
    ensures var score := LatestScore(s.rows, agent);
      Perform(s, Attempt(agent, [c], true), rate).rows
        == s.rows + [Row(c.time, agent, score, c.delta, Clamp(score + c.delta))]
  {
    var score := LatestScore(s.rows, agent);
    assert [c][1..] == [];
    assert Applied(agent, score, [c]) == [Row(c.time, agent, score, c.delta, Clamp(score + c.delta))];
  }

  /** A clock that was set back makes the stored score go back with it: the chain needs the clock. */
  lemma ClockMustNotRunBack(agent: string, rate: real)
    ensures var actions := [Attempt(agent, [Change(50, 10.0)], true), Attempt(agent, [Change(10, 5.0)], true),
                            Attempt(agent, [Change(10, 6.0)], true)];
      !Chained(Run(actions, rate).rows)
  {
    var a1, a2, a3 := Attempt(agent, [Change(50, 10.0)], true), Attempt(agent, [Change(10, 5.0)], true),
                      Attempt(agent, [Change(10, 6.0)], true);
    var actions := [a1, a2, a3];
    var r1, r2, r3 := Row(10.0, agent, 0, 50, 50), Row(5.0, agent, 50, 10, 60), Row(6.0, agent, 50, 10, 60);
    assert actions[..2] == [a1, a2] && [a1, a2][..1] == [a1] && [a1][..0] == [];
    assert [r1][..0] == [] && [r1, r2][..1] == [r1] && [r1, r2, r3][..2] == [r1, r2];
    assert Latest([r1, r2], agent) == Latest([r1], agent) == Some(r1);
    assert LeftWith([r1, r2], agent) == 60;
    hide Perform, Latest, LeftWith;
    SingleChange(Run([], rate), agent, Change(50, 10.0), rate);
    SingleChange(Run([a1], rate), agent, Change(10, 5.0), rate);
    SingleChange(Run([a1, a2], rate), agent, Change(10, 6.0), rate);
    assert LatestScore([], agent) == 0 by { EmptyLedger(agent); }
    assert Run([a1], rate).rows == [r1];
    assert Run([a1, a2], rate).rows == [r1, r2];
    assert Run(actions, rate).rows == [r1, r2, r3];
    assert !(r3.previous == LeftWith([r1, r2, r3][..2], r3.agent));
  }

  lemma EmptyLedger(agent: string)
    ensures LatestScore([], agent) == 0
  {
  }

  // ---------------------------------------------------------------- decay in pieces

  datatype Moment = Moment(measured: real, stamped: real)

  /** An agent's decay: time of its newest row, its score, the rows decay added, and the seconds that
      passed between measuring and stamping them. */
  datatype Decay = Decay(time: real, score: int, rows: nat, lag: real)

  function DecayOnce(d: Decay, m: Moment, rate: real): Decay {
    var lost := Min(d.score, Points(m.measured - d.time, rate));
    if lost == 0 then d else Decay(m.stamped, d.score - lost, d.rows + 1, d.lag + (m.stamped - m.measured))
  }

  function DecayOver(d: Decay, ticks: seq<Moment>, rate: real): Decay {
    if ticks == [] then d else DecayOnce(DecayOver(d, ticks[..|ticks| - 1], rate), ticks[|ticks| - 1], rate)
  }

  /** A quiet tick of the ledger is a step of the decay. */
  lemma TickIsDecay(s: Store, agent: string, m: Moment, rate: real, now: real, rows: nat, lag: real)
    requires TimedUntil(s.rows, now) && now <= m.measured <= m.stamped
    requires Latest(s.rows, agent).Some?
    ensures var before := Latest(s.rows, agent).value;
            var after := Latest(Perform(s, Tick(agent, m.measured, m.stamped, false), rate).rows, agent);
            var d := DecayOnce(Decay(before.time, before.score, rows, lag), m, rate);
            after.Some? && after.value.time == d.time && after.value.score == d.score
  {
    LatestIsLastInserted(s.rows, agent, now);
    var after := Perform(s, Tick(agent, m.measured, m.stamped, false), rate);
    if after != s {
      assert after.rows[..|after.rows| - 1] == s.rows;
    }
  }

  ghost predicate InOrder(ticks: seq<Moment>, from: real) {
    forall i :: 0 <= i < |ticks| ==>
      && from <= ticks[i].measured <= ticks[i].stamped
      && forall j :: i < j < |ticks| ==> ticks[i].stamped <= ticks[j].measured
  }

  /** Points as a real number. */
  ghost function Worth(seconds: real, rate: real): real { seconds / 60.0 * rate }

  lemma NothingIsWorthNothing(rate: real)
    ensures Worth(0.0, rate) == 0.0
  {
  }

  lemma PointsAreWorth(seconds: real, rate: real, n: nat)
    requires rate >= 0.0 && seconds >= 0.0
    ensures 0 <= Points(seconds, rate)
    ensures Points(seconds, rate) as real <= Worth(seconds, rate) < Points(seconds, rate) as real + 1.0
    ensures n as real <= Worth(seconds, rate) ==> n <= Points(seconds, rate)
  {
    assert Worth(seconds, rate) >= 0.0;
  }

  lemma WorthAdds(a: real, b: real, rate: real)
    ensures Worth(a + b, rate) == Worth(a, rate) + Worth(b, rate)
    ensures rate >= 0.0 && a <= b ==> Worth(a, rate) <= Worth(b, rate)
  {
    assert rate >= 0.0 && a <= b ==> (b / 60.0 - a / 60.0) * rate >= 0.0;
  }

  ghost function LastMeasured(ticks: seq<Moment>, from: real): real {
    if ticks == [] then from else ticks[|ticks| - 1].measured
  }

  /** The seconds that were measured for the rows decay added. */
  ghost function Charged(d: Decay, after: Decay): real {
    after.time - d.time - (after.lag - d.lag)
  }

  /** Cutting the time into ticks never removes more than one measurement over the whole stretch would,
      and while points are left it loses less than one per row of what was measured. */
  lemma {:induction false} SplittingDecay(d: Decay, ticks: seq<Moment>, rate: real)
    requires rate >= 0.0 && d.score >= 0 && InOrder(ticks, d.time)
    ensures var after := DecayOver(d, ticks, rate);
      && 0 <= after.score <= d.score && after.rows >= d.rows
      && (after.rows == d.rows ==> after == d)
      && d.score - after.score <= Points(LastMeasured(ticks, d.time) - d.time, rate)
      && (after.rows > d.rows && after.score > 0 ==>
          Worth(Charged(d, after), rate) < (d.score - after.score) as real + (after.rows - d.rows) as real)
  {
    var after := DecayOver(d, ticks, rate);
    DecayIsBounded(d, ticks, rate);
    var whole := LastMeasured(ticks, d.time) - d.time;
    WorthAdds(Charged(d, after), whole, rate);
    PointsAreWorth(whole, rate, d.score - after.score);
  }

  lemma {:induction false} DecayIsBounded(d: Decay, ticks: seq<Moment>, rate: real)
    requires rate >= 0.0 && d.score >= 0 && InOrder(ticks, d.time)
    ensures var after := DecayOver(d, ticks, rate);
      && 0 <= after.score <= d.score && after.rows >= d.rows && (after.rows == d.rows ==> after == d)
      && d.time <= after.time
      && (ticks == [] ==> after == d) && (ticks != [] ==> after.time <= ticks[|ticks| - 1].stamped)
      && 0.0 <= Charged(d, after) <= LastMeasured(ticks, d.time) - d.time
      && Charged(d, after) <= after.time - d.time
      && (d.score - after.score) as real <= Worth(Charged(d, after), rate)
      && (after.rows > d.rows && after.score > 0 ==>
          Worth(Charged(d, after), rate) < (d.score - after.score) as real + (after.rows - d.rows) as real)
  {
    hide Worth, Points;
    if ticks == [] {
      NothingIsWorthNothing(rate);
    } else {
      var before, m := ticks[..|ticks| - 1], ticks[|ticks| - 1];
      DecayIsBounded(d, before, rate);
      var o := DecayOver(d, before, rate);
      assert LastMeasured(before, d.time) <= m.measured && o.time <= m.measured;
      PointsAreWorth(m.measured - o.time, rate, 0);
      WorthAdds(Charged(d, o), m.measured - o.time, rate);
      var after := DecayOver(d, ticks, rate);
      if after.rows > o.rows {
        assert Charged(d, after) == Charged(d, o) + (m.measured - o.time);
      }
    }
  }

  // ---------------------------------------------------------------- what each action adds to the ledger

  lemma {:induction false} AppliedAre(agent: string, score: int, changes: seq<Change>)
    ensures var rows := Applied(agent, score, changes);
      && |rows| == |changes|
      && forall i :: 0 <= i < |rows| ==>
           && rows[i].agent == agent && rows[i].time == changes[i].time && rows[i].delta == changes[i].delta
           && (i > 0 ==> rows[i].previous == rows[i - 1].score) && AddsUp(rows[i])
    ensures changes != [] ==> Applied(agent, score, changes)[0].previous == score
    decreases |changes|
  {
    if changes != [] {
      AppliedAre(agent, Clamp(score + changes[0].delta), changes[1..]);
    }
  }

  /** The newest row of an agent by time; of equally new ones the one inserted last. */
  ghost predicate IsNewest(rows: seq<Row>, agent: string, n: nat) {
    && n < |rows| && rows[n].agent == agent
    && forall i :: 0 <= i < |rows| && rows[i].agent == agent ==>
         rows[i].time < rows[n].time || (rows[i].time == rows[n].time && i <= n)
  }

  lemma {:induction false} LatestIsTheNewest(rows: seq<Row>, agent: string, n: nat)
    requires IsNewest(rows, agent, n)
    ensures Latest(rows, agent) == Some(rows[n])
  {
    var before := rows[..|rows| - 1];
    LatestIsNewest(rows, agent);
    if n < |before| {
      LatestIsTheNewest(before, agent, n);
    } else {
      LatestIsNewest(before, agent);
      if Latest(before, agent).Some? {
        LatestIsMember(before, agent);
        var i :| 0 <= i < |before| && before[i] == Latest(before, agent).value;
        assert rows[i] == before[i];
      }
    }
  }

  /** A committed attempt adds one row for each of its changes, in order, each starting where the one before ended,
      and the first at the score of the agent's newest row, or at 0. An attempt that is rolled back adds none. */
  lemma AttemptAddsItsChanges(s: Store, agent: string, changes: seq<Change>, committed: bool, rate: real, newest: nat)
    ensures var after := Perform(s, Attempt(agent, changes, committed), rate).rows;
      && |after| == |s.rows| + (if committed then |changes| else 0) && after[..|s.rows|] == s.rows
      && (forall i :: |s.rows| <= i < |after| ==> IsOfChange(after[i], agent, changes[i - |s.rows|]))
      && (forall i :: |s.rows| < i < |after| ==> after[i].previous == after[i - 1].score)
      && (|after| > |s.rows| && IsNewest(s.rows, agent, newest) ==>
            after[|s.rows|].previous == s.rows[newest].score)
      && (|after| > |s.rows| && (forall k :: 0 <= k < |s.rows| ==> s.rows[k].agent != agent) ==>
            after[|s.rows|].previous == 0)
  {
    var score := LatestScore(s.rows, agent);
    AppliedAre(agent, score, changes);
    ScoreToStartFrom(s.rows, agent, newest);
    AttemptRows(s, agent, changes, committed, rate);
    hide Perform, Applied, LatestScore, AddsUp, IsNewest;
    var after, added := Perform(s, Attempt(agent, changes, committed), rate).rows, Applied(agent, score, changes);
    if committed {
      assert after == s.rows + added;
      forall i | |s.rows| <= i < |after| ensures IsOfChange(after[i], agent, changes[i - |s.rows|]) {
        assert after[i] == added[i - |s.rows|];
      }
      forall i | |s.rows| < i < |after| ensures after[i].previous == after[i - 1].score {
        assert after[i] == added[i - |s.rows|] && after[i - 1] == added[i - |s.rows| - 1];
      }
      assert added != [] ==> after[|s.rows|] == added[0] && added[0].previous == score;
    }
  }

  lemma AttemptRows(s: Store, agent: string, changes: seq<Change>, committed: bool, rate: real)
    ensures Perform(s, Attempt(agent, changes, committed), rate).rows
         == if committed then s.rows + Applied(agent, LatestScore(s.rows, agent), changes) else s.rows
  {
    hide Applied, LatestScore;
  }

  lemma ScoreToStartFrom(rows: seq<Row>, agent: string, newest: nat)
    ensures IsNewest(rows, agent, newest) ==> LatestScore(rows, agent) == rows[newest].score
    ensures (forall k :: 0 <= k < |rows| ==> rows[k].agent != agent) ==> LatestScore(rows, agent) == 0
  {
    if IsNewest(rows, agent, newest) { LatestIsTheNewest(rows, agent, newest); }
    if Latest(rows, agent).Some? { LatestIsMember(rows, agent); }
  }

  /** The row records the change. */
  ghost predicate IsOfChange(row: Row, agent: string, c: Change) {
    row.agent == agent && row.time == c.time && row.delta == c.delta && AddsUp(row)
  }

  /** The background decay adds a row exactly when no critical incident is open, the agent has points, and the time
      since its newest row is worth a whole one; it takes the whole points, or what is left of the score. */
  lemma TickTakesWholePoints(s: Store, agent: string, measured: real, stamped: real, critical: bool, rate: real, n: nat)
    requires IsNewest(s.rows, agent, n) && rate >= 0.0 && measured >= s.rows[n].time && s.rows[n].score >= 0
    ensures var newest, after := s.rows[n], Perform(s, Tick(agent, measured, stamped, critical), rate).rows;
            var due := (measured - newest.time) / 60.0 * rate;
      && (after != s.rows <==> !critical && newest.score > 0 && due >= 1.0)
      && (after != s.rows ==>
            && |after| == |s.rows| + 1 && after[..|s.rows|] == s.rows
            && var row := after[|s.rows|];
            && row.agent == agent && row.time == stamped && row.previous == newest.score
            && row.delta < 0 && row.score == newest.score + row.delta && 0 <= row.score
            && (-row.delta) as real <= due && (row.score > 0 ==> due < (1 - row.delta) as real))
  {
    LatestIsTheNewest(s.rows, agent, n);
    var newest := s.rows[n];
    PointsAreWorth(measured - newest.time, rate, 1);
    WorthAdds(0.0, measured - newest.time, rate);
    NothingIsWorthNothing(rate);
  }
}
