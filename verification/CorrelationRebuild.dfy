/**
The rebuild of the correlator before each event: the query for completed events, whose order is that of the
stored texts of their timestamps, and the replay of its result into a fresh engine.
*/
module CorrelationRebuild {
  import opened Correlation

  /** A completed event as stored. The timestamp is the ISO text of a local time and its offset from UTC. */
  datatype Row = Row(event: Event, offset: int)

  function Wall(r: Row): int { r.event.time + r.offset }

  /** Of two offset texts, `+` comes before `-`, and the smaller distance from UTC first. */
  predicate OffsetBefore(a: int, b: int) {
    if a >= 0 then b < 0 || a < b else b < 0 && a > b
  }

  /** The signs and the distances, written as in a text: the sign decides first. */
  lemma OffsetsSortAsTexts(a: int, b: int)
    ensures var signOfA, signOfB := if a < 0 then '-' else '+', if b < 0 then '-' else '+';
            var x, y := if a < 0 then -a else a, if b < 0 then -b else b;
      OffsetBefore(a, b) <==> signOfA < signOfB || (signOfA == signOfB && x < y)
  {
    assert '+' < '-';
  }

  /** The order of two timestamp texts: the local time has a fixed width and comes first, the offset follows. */
  predicate StampBefore(x: Row, y: Row) {
    Wall(x) < Wall(y) || (Wall(x) == Wall(y) && OffsetBefore(x.offset, y.offset))
  }

  predicate NotAfter(x: Row, y: Row) { !StampBefore(y, x) }

  function Events(rows: seq<Row>): (es: seq<Event>)
    ensures |es| == |rows| && forall i :: 0 <= i < |rows| ==> es[i] == rows[i].event
  {
    seq(|rows|, i requires 0 <= i < |rows| => rows[i].event)
  }

  /** The rows the query is about: the agent's, with a timestamp text not after the current event's. */
  predicate Wanted(r: Row, current: Row) {
    r.event.agent == current.event.agent && NotAfter(r, current)
  }

  function Selected(completed: seq<Row>, current: Row): seq<Row> {
    if completed == [] then []
    else (if Wanted(completed[0], current) then [completed[0]] else []) + Selected(completed[1..], current)
  }

  ghost predicate InStampOrder(rows: seq<Row>) {
    forall i, j :: 0 <= i < j < |rows| ==> NotAfter(rows[i], rows[j])
  }

  /** All wanted rows, oldest text first; equal texts in any order. */
  ghost predicate Sorts(sorted: seq<Row>, completed: seq<Row>, current: Row) {
    InStampOrder(sorted) && multiset(sorted) == multiset(Selected(completed, current))
  }

  function NewestRows(rows: seq<Row>, limit: nat): seq<Row> {
    if |rows| <= limit then rows else rows[|rows| - limit..]
  }

  function Reversed(rows: seq<Row>): (back: seq<Row>)
    ensures |back| == |rows| && forall i :: 0 <= i < |rows| ==> back[i] == rows[|rows| - 1 - i]
  {
    seq(|rows|, i requires 0 <= i < |rows| => rows[|rows| - 1 - i])
  }

  /** `previous` is the query's result, newest first; it is replayed from its end into a fresh engine, which then
      sees the current event. */
  method FindAfterRebuild(previous: seq<Row>, current: Row, window: nat) returns (findings: seq<Finding>)
    ensures findings == Step(Replay(Events(Reversed(previous)), window), current.event, window).1
  {
    hide Step, Replay;
    var engine := new CorrelationEngine(window);
    ghost var oldestFirst := Events(Reversed(previous));
    NothingReplayedYet(window);
    assert oldestFirst[..0] == [];
    var i := |previous|;
    while i > 0
      invariant 0 <= i <= |previous| && engine.window == window && fresh(engine)
      invariant engine.State() == Replay(oldestFirst[..|previous| - i], window)
    {
      i := i - 1;
      assert oldestFirst[|previous| - 1 - i] == previous[i].event;
      OneMoreReplayed(oldestFirst, |previous| - 1 - i, window);
      var ignored := engine.ProcessEvent(previous[i].event);
    }
    assert oldestFirst[..|previous|] == oldestFirst;
    findings := engine.ProcessEvent(current.event);
  }

  lemma NothingReplayedYet(window: nat)
    ensures Replay([], window) == EMPTY
  {
  }

  lemma OneMoreReplayed(h: seq<Event>, n: nat, window: nat)
    requires n < |h|
    ensures Replay(h[..n + 1], window) == Step(Replay(h[..n], window), h[n], window).0
  {
    assert h[..n + 1][..n] == h[..n];
  }

  // ---------------------------------------------------------------- when the order of texts is that of time

  /** The texts of these timestamps are ordered as the instants they stand for. */
  ghost predicate StampsTellTime(rows: seq<Row>) {
    forall x, y :: x in rows && y in rows && NotAfter(x, y) ==> x.event.time <= y.event.time
  }

  /** The current event's text tells which of its agent's events were not later. */
  ghost predicate StampTellsPast(completed: seq<Row>, current: Row) {
    forall x :: x in completed && x.event.agent == current.event.agent ==>
      (NotAfter(x, current) <==> x.event.time <= current.event.time)
  }

  lemma {:induction false} SelectedAre(completed: seq<Row>, current: Row)
    ensures forall x :: x in Selected(completed, current) <==> x in completed && Wanted(x, current)
  {
    hide Wanted;
    if completed != [] {
      SelectedAre(completed[1..], current);
      assert completed == [completed[0]] + completed[1..];
    }
  }

  lemma SortedAre(sorted: seq<Row>, completed: seq<Row>, current: Row)
    requires Sorts(sorted, completed, current)
    ensures forall x :: x in sorted <==> x in completed && Wanted(x, current)
  {
    hide Wanted, InStampOrder;
    SelectedAre(completed, current);
    assert forall x :: x in sorted <==> x in multiset(sorted);
    assert forall x :: x in Selected(completed, current) <==> x in multiset(Selected(completed, current));
  }

  lemma EqualStamps(x: Row, y: Row)
    requires NotAfter(x, y) && NotAfter(y, x)
    ensures x.event.time == y.event.time && x.offset == y.offset
  {
  }

  /** Rows in the order of their texts are in the order of time exactly when the texts tell time. */
  lemma TextOrderIsTimeOrderExactly(rows: seq<Row>)
    requires InStampOrder(rows)
    ensures Ordered(Events(rows)) <==> StampsTellTime(rows)
  {
    hide NotAfter;
    if Ordered(Events(rows)) {
      forall x, y | x in rows && y in rows && NotAfter(x, y) ensures x.event.time <= y.event.time {
        var i :| 0 <= i < |rows| && rows[i] == x;
        var j :| 0 <= j < |rows| && rows[j] == y;
        assert Events(rows)[i] == x.event && Events(rows)[j] == y.event;
        if i > j {
          assert NotAfter(y, x);
          EqualStamps(x, y);
        }
      }
    }
    if StampsTellTime(rows) {
      forall i, j | 0 <= i < j < |rows| ensures Events(rows)[i].time <= Events(rows)[j].time {
        assert rows[i] in rows && rows[j] in rows && NotAfter(rows[i], rows[j]);
      }
    }
  }

  /** The replayed events are the agent's past, in the order of time, if and only if the texts tell past and time. */
  lemma RebuildSeesThePastExactly(sorted: seq<Row>, completed: seq<Row>, current: Row)
    requires Sorts(sorted, completed, current)
    ensures
      && Ordered(Events(sorted + [current]))
      && (forall x :: x in completed && x.event.agent == current.event.agent ==>
            (x in sorted <==> x.event.time <= current.event.time))
      <==> StampsTellTime(sorted + [current]) && StampTellsPast(completed, current)
  {
    SortedAre(sorted, completed, current);
    CurrentComesLast(sorted, completed, current);
    TextOrderIsTimeOrderExactly(sorted + [current]);
    hide NotAfter, Ordered, StampsTellTime, InStampOrder, Sorts;
    assert forall x :: x in completed && x.event.agent == current.event.agent ==>
             (x in sorted <==> NotAfter(x, current));
  }

  lemma CurrentComesLast(sorted: seq<Row>, completed: seq<Row>, current: Row)
    requires Sorts(sorted, completed, current)
    ensures InStampOrder(sorted + [current])
  {
    SortedAre(sorted, completed, current);
    var all := sorted + [current];
    forall i, j | 0 <= i < j < |all| ensures NotAfter(all[i], all[j]) {
      assert i < |sorted| && all[i] == sorted[i] && sorted[i] in sorted;
    }
  }

  /** Timestamps with one offset always tell past and time. */
  lemma OneOffsetTellsTime(sorted: seq<Row>, completed: seq<Row>, current: Row)
    requires Sorts(sorted, completed, current)
    requires forall x :: x in completed && x.event.agent == current.event.agent ==> x.offset == current.offset
    ensures StampsTellTime(sorted + [current]) && StampTellsPast(completed, current)
  {
    SortedAre(sorted, completed, current);
    assert forall x :: x in sorted + [current] ==> x.offset == current.offset;
  }

  /** Where the texts tell past and time, and the omitted events end more than a window before the first kept one,
      the findings after the rebuild are those of the full history of the agent up to the event. */
  lemma RebuildIsFaithful(sorted: seq<Row>, completed: seq<Row>, current: Row, limit: nat, window: nat)
    requires Sorts(sorted, completed, current)
    requires StampsTellTime(sorted + [current]) && StampTellsPast(completed, current)
    requires var h := Events(sorted); |h| <= limit || Gap(h[..|h| - limit], h[|h| - limit..], window)
    ensures var h := Events(sorted);
      && OfOneAgent(h, current.event.agent) && Ordered(h + [current.event])
      && Step(Replay(Events(NewestRows(sorted, limit)), window), current.event, window).1
         == Expected(h, current.event, ExecFires(h, current.event, window), window)
    ensures forall x :: x in completed && x.event.agent == current.event.agent ==>
              (x in sorted <==> x.event.time <= current.event.time)
  {
    var h := Events(sorted);
    RebuildSeesThePastExactly(sorted, completed, current);
    SortedAre(sorted, completed, current);
    EventsJoin(sorted, current);
    OfTheAgent(sorted, current);
    hide Step, Replay, Expected, ExecFires, Ordered, OfOneAgent, Gap, StampsTellTime, StampTellsPast, Sorts, Wanted;
    assert Events(NewestRows(sorted, limit)) == Newest(h, limit);
    NewestReplayIsFaithful(h, current.event, limit, window);
    CorrelationRefinesHistory(h, current.event, window);
  }

  lemma EventsJoin(rows: seq<Row>, current: Row)
    ensures Events(rows + [current]) == Events(rows) + [current.event]
  {
  }

  lemma OfTheAgent(rows: seq<Row>, current: Row)
    requires forall x :: x in rows ==> x.event.agent == current.event.agent
    ensures OfOneAgent(Events(rows), current.event.agent)
  {
    forall i | 0 <= i < |rows| ensures Events(rows)[i].agent == current.event.agent {
      assert rows[i] in rows;
    }
  }

  // ---------------------------------------------------------------- where different offsets lose a finding

  function Shell(agent: string, time: int): Event { Event(agent, "", time, false, false, false, true, "") }

  function Connection(agent: string, time: int): Event {
    Event(agent, "", time, false, false, false, false, "198.51.100.45")
  }

  /** A connection stamped with an offset larger than the window pulls a later event, stamped in UTC, before
      itself, and the shell that was started at its very instant is forgotten. By the order of time it is found. */
  lemma LaterEventIsReplayed(agent: string, window: nat, offset: int)
    requires offset > window
    ensures var shell := Row(Shell(agent, 0), 0);
            var late := Row(Event(agent, "", window + 1, false, false, false, false, ""), 0);
            var connection := Row(Connection(agent, 0), offset);
      && Sorts([shell, late], [shell, late], connection) && late.event.time > connection.event.time
      && Step(Replay(Events(NewestRows([shell, late], REBUILD_LIMIT)), window), connection.event, window).1 == []
      && Step(Replay([shell.event], window), connection.event, window).1
         == [ExecThenNetwork(agent, connection.event.destination, 0)]
  {
    var shell := Row(Shell(agent, 0), 0);
    var late := Row(Event(agent, "", window + 1, false, false, false, false, ""), 0);
    var connection := Row(Connection(agent, 0), offset);
    BothAreSelected(shell, late, connection);
    hide Step, Replay, Sorts, Selected, StampBefore, ExecFires;
    OutOfOrderLosesAFinding(agent, window);
    assert Events([shell, late]) == [shell.event, late.event];
    ShellIsFound(agent, 0, window);
  }

  lemma BothAreSelected(first: Row, second: Row, current: Row)
    requires Wanted(first, current) && Wanted(second, current) && NotAfter(first, second)
    ensures Sorts([first, second], [first, second], current)
  {
    hide Wanted;
    assert [first, second][1..] == [second] && [second][1..] == [];
    assert Selected([second], current) == [second];
    assert Selected([first, second], current) == [first, second];
  }

  /** A shell stamped with an offset is not replayed for a connection stamped in UTC, though it came first. */
  lemma EarlierEventIsOmitted(agent: string, window: nat, delay: nat, offset: int)
    requires delay <= window && delay < offset
    ensures var shell, connection := Row(Shell(agent, 0), offset), Row(Connection(agent, delay), 0);
      && Sorts([], [shell], connection) && shell.event.time <= connection.event.time
      && Step(Replay([], window), connection.event, window).1 == []
      && Step(Replay([shell.event], window), connection.event, window).1
         == [ExecThenNetwork(agent, connection.event.destination, delay)]
  {
    var shell, connection := Row(Shell(agent, 0), offset), Row(Connection(agent, delay), 0);
    assert [shell][1..] == [];
    assert Selected([shell], connection) == [];
    hide Step, Replay;
    ShellIsFound(agent, delay, window);
    NothingIsFound(agent, delay, window);
  }

  lemma ShellIsFound(agent: string, delay: nat, window: nat)
    requires delay <= window
    ensures Step(Replay([Shell(agent, 0)], window), Connection(agent, delay), window).1
         == [ExecThenNetwork(agent, "198.51.100.45", delay)]
  {
    var h, e := [Shell(agent, 0)], Connection(agent, delay);
    hide Step, Replay;
    CorrelationRefinesHistory(h, e, window);
    assert (h + [e])[0] == Shell(agent, 0);
  }

  lemma NothingIsFound(agent: string, delay: nat, window: nat)
    ensures Step(Replay([], window), Connection(agent, delay), window).1 == []
  {
    var e := Connection(agent, delay);
    hide Step, Replay;
    CorrelationRefinesHistory([], e, window);
    assert forall i :: 0 <= i <= 0 ==> ([] + [e])[i] == e;
  }
}
