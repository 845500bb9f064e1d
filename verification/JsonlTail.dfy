/**
Tailing an append-only file of JSON lines: at most a hundred lines a poll, the checkpoint saved after
each line is consumed, and a crash or a refusal possible at every line.
*/
module JsonlTail {
  import opened Options

  type byte = b: int | 0 <= b < 256

  const NEWLINE: byte := 10
  const LINES_PER_POLL: nat := 100

  /** The position just past the first newline at or after `from`. */
  function LineEnd(file: seq<byte>, from: nat): (end: Option<nat>)
    requires from <= |file|
    ensures end.Some? ==> from < end.value <= |file| && file[end.value - 1] == NEWLINE
                          && forall i :: from <= i < end.value - 1 ==> file[i] != NEWLINE
    ensures end.None? ==> forall i :: from <= i < |file| ==> file[i] != NEWLINE
    decreases |file| - from
  {
    if from == |file| then None
    else if file[from] == NEWLINE then Some(from + 1)
    else LineEnd(file, from + 1)
  }

  /** The newline-terminated lines of a file, in order; an unfinished last line is not one of them. */
  function Lines(file: seq<byte>): seq<seq<byte>> {
    match LineEnd(file, 0)
    case None => []
    case Some(end) => [file[..end]] + Lines(file[end..])
  }

  datatype Delivery = Delivery(start: nat, line: seq<byte>)

  /** How a line fares: consumed and checkpointed, refused by the consumer, or consumed just before a crash. */
  datatype Fate = Delivered | Refused | Crashed

  /** What one turn of the loop meets: bytes that arrived, and the fate of the line it reads. */
  datatype Turn = Turn(grown: seq<byte>, fate: Fate)

  datatype Tail = Tail(file: seq<byte>, checkpoint: nat, delivered: seq<Delivery>)

  /** One turn of the loop, reading on from the checkpoint, and whether the loop goes on after it. */
  function ReadOne(t: Tail, turn: Turn, parses: seq<byte> -> bool): (one: (Tail, bool))
    requires t.checkpoint <= |t.file|
    ensures one.0.checkpoint <= |one.0.file|
  {
    var u := t.(file := t.file + turn.grown);
    match LineEnd(u.file, u.checkpoint)
    case None => (u, false)
    case Some(end) =>
      var line := u.file[u.checkpoint..end];
      if !parses(line) || turn.fate.Refused? then (u, false)
      else
        var v := u.(delivered := u.delivered + [Delivery(u.checkpoint, line)]);
        if turn.fate.Crashed? then (v, false) else (v.(checkpoint := end), true)
  }

  /** The turns of one poll that are left. */
  function PollSpec(t: Tail, turns: seq<Turn>, left: nat, parses: seq<byte> -> bool): Tail
    requires t.checkpoint <= |t.file|
    decreases |turns|
  {
    if turns == [] || left == 0 then t
    else
      var one := ReadOne(t, turns[0], parses);
      if one.1 then PollSpec(one.0, turns[1..], left - 1, parses) else one.0
  }

  /** A checkpoint past the end of the file is dropped; an append-only file never has one. */
  function Rewound(t: Tail): (r: Tail)
    ensures r.checkpoint <= |r.file|
  {
    if t.checkpoint > |t.file| then t.(checkpoint := 0) else t
  }

  class JsonlCollector {
    var file: seq<byte>
    var checkpoint: nat
    var delivered: seq<Delivery>

    constructor ()
      ensures State() == Tail([], 0, [])
    { file, checkpoint, delivered := [], 0, []; }

    ghost function State(): Tail
      reads this
    { Tail(file, checkpoint, delivered) }

    method ReadLine(offset: nat) returns (line: seq<byte>)
      requires offset <= |file|
      ensures line == file[offset..(match LineEnd(file, offset) case None => |file| case Some(end) => end)]
      ensures LineEnd(file, offset).Some? <==> line != [] && line[|line| - 1] == NEWLINE
    {
      var end := offset;
      while end < |file| && (end == offset || file[end - 1] != NEWLINE)
        invariant offset <= end <= |file|
        invariant forall i :: offset <= i < end - 1 ==> file[i] != NEWLINE
      {
        end := end + 1;
      }
      line := file[offset..end];
    }

    /** One turn of the loop in `Poll`. */
    method ReadTurn(turn: Turn, parses: seq<byte> -> bool) returns (more: bool)
      requires checkpoint <= |file|
      modifies this
      ensures (State(), more) == ReadOne(old(State()), turn, parses)
      ensures checkpoint <= |file|
    {
      file := file + turn.grown;
      var line := ReadLine(checkpoint);
      if line == [] || line[|line| - 1] != NEWLINE { return false; }
      if !parses(line) || turn.fate.Refused? { return false; }
      delivered := delivered + [Delivery(checkpoint, line)];
      if turn.fate.Crashed? { return false; }
      checkpoint := checkpoint + |line|;
      more := true;
    }

    method Poll(turns: seq<Turn>, parses: seq<byte> -> bool)
      modifies this
      ensures State() == PollSpec(Rewound(old(State())), turns, LINES_PER_POLL, parses)
    {
      hide ReadOne, PollSpec;
      if checkpoint > |file| { checkpoint := 0; }
      var n, rest := 0, turns;
      while n < LINES_PER_POLL && rest != []
        invariant n <= LINES_PER_POLL && checkpoint <= |file|
        invariant PollSpec(Rewound(old(State())), turns, LINES_PER_POLL, parses)
               == PollSpec(State(), rest, LINES_PER_POLL - n, parses)
        decreases |rest|
      {
        PollUnrolls(State(), rest, LINES_PER_POLL - n, parses);
        var more := ReadTurn(rest[0], parses);
        if !more { return; }
        n, rest := n + 1, rest[1..];
      }
      PollEnds(State(), rest, LINES_PER_POLL - n, parses);
    }
  }

  // ---------------------------------------------------------------- runs

  datatype Event = Grow(bytes: seq<byte>) | Poll(turns: seq<Turn>)

  function Perform(t: Tail, e: Event, parses: seq<byte> -> bool): Tail {
    match e
    case Grow(bytes) => t.(file := t.file + bytes)
    case Poll(turns) => PollSpec(Rewound(t), turns, LINES_PER_POLL, parses)
  }

  const FRESH := Tail([], 0, [])

  function Run(events: seq<Event>, parses: seq<byte> -> bool): (t: Tail)
    ensures Sound(t, parses)
  {
    FreshIsSound(parses);
    if events == [] then FRESH
    else
      var before := Run(events[..|events| - 1], parses);
      PerformIsSound(before, events[|events| - 1], parses);
      Perform(before, events[|events| - 1], parses)
  }

  /** Deliveries with immediate repeats taken out. */
  ghost function Collapse(ds: seq<Delivery>): seq<seq<byte>> {
    if ds == [] then []
    else if |ds| > 1 && ds[|ds| - 1] == ds[|ds| - 2] then Collapse(ds[..|ds| - 1])
    else Collapse(ds[..|ds| - 1]) + [ds[|ds| - 1].line]
  }

  ghost function End(ds: seq<Delivery>): nat {
    if ds == [] then 0 else ds[|ds| - 1].start + |ds[|ds| - 1].line|
  }

  /** Zero, or just past a newline. */
  ghost predicate Boundary(file: seq<byte>, p: nat) {
    p == 0 || (p <= |file| && file[p - 1] == NEWLINE)
  }

  ghost predicate Sound(t: Tail, parses: seq<byte> -> bool) {
    && t.checkpoint <= |t.file| && Boundary(t.file, t.checkpoint)
    && End(t.delivered) <= |t.file| && Boundary(t.file, End(t.delivered))
    && Collapse(t.delivered) == Lines(t.file[..End(t.delivered)])
    && (forall d :: d in t.delivered ==> parses(d.line) && d.line != [])
    && (t.checkpoint == End(t.delivered) ||
        (t.delivered != [] && t.checkpoint == t.delivered[|t.delivered| - 1].start
         && LineEnd(t.file, t.checkpoint) == Some(End(t.delivered))
         && t.delivered[|t.delivered| - 1].line == t.file[t.checkpoint..End(t.delivered)]))
  }

  lemma FreshIsSound(parses: seq<byte> -> bool)
    ensures Sound(FRESH, parses)
  {
    assert FRESH.file[..0] == [];
  }

  lemma {:induction false} GrowthKeepsLineEnd(file: seq<byte>, more: seq<byte>, from: nat)
    requires from <= |file| && LineEnd(file, from).Some?
    ensures LineEnd(file + more, from) == LineEnd(file, from)
    decreases |file| - from
  {
    if file[from] != NEWLINE {
      GrowthKeepsLineEnd(file, more, from + 1);
    }
  }

  lemma {:induction false} LineEndShifts(file: seq<byte>, skip: nat, from: nat)
    requires skip <= from <= |file|
    ensures LineEnd(file[skip..], from - skip)
         == (match LineEnd(file, from) case None => None case Some(e) => Some(e - skip))
    decreases |file| - from
  {
    if from < |file| && file[from] != NEWLINE {
      LineEndShifts(file, skip, from + 1);
    }
  }

  lemma FirstLine(file: seq<byte>, end: nat)
    requires LineEnd(file, 0) == Some(end)
    ensures Lines(file) == [file[..end]] + Lines(file[end..])
  {
  }

  /** Up to a boundary, the lines are complete: what follows adds its own. */
  lemma {:induction false} LinesSplit(a: seq<byte>, b: seq<byte>)
    requires a == [] || a[|a| - 1] == NEWLINE
    ensures Lines(a + b) == Lines(a) + Lines(b)
    decreases |a|
  {
    hide Lines, LineEnd;
    if a == [] {
      assert a + b == b;
      assert Lines(a) == [] by { NoLines(a); }
    } else {
      var end := LineEnd(a, 0).value;
      GrowthKeepsLineEnd(a, b, 0);
      FirstLine(a, end);
      FirstLine(a + b, end);
      assert (a + b)[..end] == a[..end] && (a + b)[end..] == a[end..] + b;
      LinesSplit(a[end..], b);
    }
  }

  lemma NoLines(file: seq<byte>)
    requires LineEnd(file, 0).None?
    ensures Lines(file) == []
  {
  }

  lemma OneLine(line: seq<byte>)
    requires line != [] && line[|line| - 1] == NEWLINE && forall i :: 0 <= i < |line| - 1 ==> line[i] != NEWLINE
    ensures Lines(line) == [line]
  {
    hide Lines;
    var found := LineEnd(line, 0);
    FirstLine(line, |line|);
    NoLines(line[|line|..]);
    assert line[..|line|] == line;
  }

  lemma LineIsWhole(file: seq<byte>, p: nat, end: nat)
    requires p <= |file| && LineEnd(file, p) == Some(end)
    ensures var line := file[p..end];
      line != [] && line[|line| - 1] == NEWLINE && forall i :: 0 <= i < |line| - 1 ==> line[i] != NEWLINE
  {
  }

  lemma OneMoreLine(file: seq<byte>, p: nat, end: nat)
    requires p <= |file| && Boundary(file, p) && LineEnd(file, p) == Some(end)
    ensures Lines(file[..end]) == Lines(file[..p]) + [file[p..end]]
  {
    hide Lines, LineEnd;
    var line := file[p..end];
    LineIsWhole(file, p, end);
    assert file[..end] == file[..p] + line;
    LinesSplit(file[..p], line);
    OneLine(line);
  }

  lemma GrowIsSound(t: Tail, more: seq<byte>, parses: seq<byte> -> bool)
    requires Sound(t, parses)
    ensures Sound(t.(file := t.file + more), parses)
  {
    var end := End(t.delivered);
    assert (t.file + more)[..end] == t.file[..end];
    if t.checkpoint != end {
      GrowthKeepsLineEnd(t.file, more, t.checkpoint);
      assert (t.file + more)[t.checkpoint..end] == t.file[t.checkpoint..end];
    }
  }

  lemma {:induction false} PollIsSound(t: Tail, turns: seq<Turn>, left: nat, parses: seq<byte> -> bool)
    requires Sound(t, parses)
    ensures Sound(PollSpec(t, turns, left, parses), parses)
    decreases |turns|
  {
    hide ReadOne, Sound;
    assert t.checkpoint <= |t.file| by { CheckpointIsInside(t, parses); }
    if turns != [] && left > 0 {
      TurnIsSound(t, turns[0], parses);
      PollIsSound(ReadOne(t, turns[0], parses).0, turns[1..], left - 1, parses);
    }
  }

  lemma CheckpointIsInside(t: Tail, parses: seq<byte> -> bool)
    requires Sound(t, parses)
    ensures t.checkpoint <= |t.file|
  {
  }

  lemma TurnIsSound(t: Tail, turn: Turn, parses: seq<byte> -> bool)
    requires Sound(t, parses)
    ensures Sound(ReadOne(t, turn, parses).0, parses)
  {
    hide Sound;
    GrowIsSound(t, turn.grown, parses);
    CheckpointIsInside(t, parses);
    var u := t.(file := t.file + turn.grown);
    var found := LineEnd(u.file, u.checkpoint);
    if found.Some? && parses(u.file[u.checkpoint..found.value]) {
      DeliveryIsSound(u, found.value, parses);
    }
  }

  /** The line at the checkpoint is either the next one or a repeat of the last. */
  lemma DeliveryIsSound(u: Tail, end: nat, parses: seq<byte> -> bool)
    requires Sound(u, parses) && LineEnd(u.file, u.checkpoint) == Some(end) && parses(u.file[u.checkpoint..end])
    ensures var v := u.(delivered := u.delivered + [Delivery(u.checkpoint, u.file[u.checkpoint..end])]);
            Sound(v, parses) && Sound(v.(checkpoint := end), parses)
  {
    hide Lines, LineEnd;
    var d := Delivery(u.checkpoint, u.file[u.checkpoint..end]);
    var longer := u.delivered + [d];
    assert longer[..|longer| - 1] == u.delivered;
    if u.checkpoint == End(u.delivered) {
      OneMoreLine(u.file, u.checkpoint, end);
    }
  }

  lemma PerformIsSound(t: Tail, e: Event, parses: seq<byte> -> bool)
    requires Sound(t, parses)
    ensures Sound(Perform(t, e, parses), parses)
  {
    match e
    case Grow(bytes) => GrowIsSound(t, bytes, parses);
    case Poll(turns) => PollIsSound(t, turns, LINES_PER_POLL, parses);
  }

  /** In every run: what was consumed, repeats collapsed, is the complete lines of the file from the first
      on; the checkpoint is a line boundary and at most one line behind. */
  lemma ConsumedAreTheCompleteLines(events: seq<Event>, parses: seq<byte> -> bool)
    ensures var t := Run(events, parses);
      && Collapse(t.delivered) <= Lines(t.file)
      && Boundary(t.file, t.checkpoint)
      && (forall d :: d in t.delivered ==> d.line in Lines(t.file))
      && (Lines(t.file[..t.checkpoint]) == Collapse(t.delivered)
          || (t.delivered != [] && Lines(t.file[..t.checkpoint]) + [t.delivered[|t.delivered| - 1].line]
                                   == Collapse(t.delivered)))
  {
    hide Run, Lines, LineEnd, Collapse;
    var t := Run(events, parses);
    var end := End(t.delivered);
    assert t.file == t.file[..end] + t.file[end..];
    LinesSplit(t.file[..end], t.file[end..]);
    if t.checkpoint != end {
      OneMoreLine(t.file, t.checkpoint, end);
    }
    forall d | d in t.delivered ensures d.line in Lines(t.file) {
      DeliveredAreCollapsed(t.delivered, d);
      var i :| 0 <= i < |Collapse(t.delivered)| && Collapse(t.delivered)[i] == d.line;
      assert Lines(t.file)[i] == d.line;
    }
  }

  lemma {:induction false} DeliveredAreCollapsed(ds: seq<Delivery>, d: Delivery)
    requires d in ds
    ensures d.line in Collapse(ds)
  {
    var last := ds[|ds| - 1];
    if d in ds[..|ds| - 1] {
      DeliveredAreCollapsed(ds[..|ds| - 1], d);
    } else if |ds| > 1 {
      assert ds[|ds| - 2] in ds[..|ds| - 1];
    }
  }

  /** A line that does not parse is never passed: no run gets beyond it. */
  lemma UnparseableLineBlocks(events: seq<Event>, n: nat, parses: seq<byte> -> bool)
    requires n < |Lines(Run(events, parses).file)| && !parses(Lines(Run(events, parses).file)[n])
    ensures |Collapse(Run(events, parses).delivered)| <= n
  {
    var t := Run(events, parses);
    ConsumedAreTheCompleteLines(events, parses);
    CollapsedWereDelivered(t.delivered);
    var collapsed := Collapse(t.delivered);
    assert forall i :: 0 <= i < |collapsed| ==> collapsed[i] in collapsed && collapsed[i] == Lines(t.file)[i];
  }

  lemma {:induction false} CollapsedWereDelivered(ds: seq<Delivery>)
    ensures forall line :: line in Collapse(ds) ==> exists d :: d in ds && d.line == line
  {
    if ds != [] {
      CollapsedWereDelivered(ds[..|ds| - 1]);
    }
  }

  ghost predicate AllParse(lines: seq<seq<byte>>, parses: seq<byte> -> bool) {
    forall line :: line in lines ==> parses(line)
  }

  /** Nothing arrives meanwhile, and no line is refused or followed by a crash. */
  ghost predicate Undisturbed(turns: seq<Turn>) {
    forall i :: 0 <= i < |turns| ==> turns[i] == Turn([], Delivered)
  }

  /** One undisturbed turn: the next line is consumed, or there is none. */
  lemma QuietTurn(t: Tail, parses: seq<byte> -> bool)
    requires t.checkpoint <= |t.file|
    requires AllParse(Lines(t.file[t.checkpoint..]), parses)
    ensures var one := ReadOne(t, Turn([], Delivered), parses);
      && one.0.file == t.file
      && (!one.1 ==> one.0 == t && Lines(t.file[t.checkpoint..]) == [])
      && (one.1 ==> exists line :: Lines(t.file[t.checkpoint..]) == [line] + Lines(t.file[one.0.checkpoint..]))
  {
    hide Lines, LineEnd;
    assert t.file + [] == t.file;
    LineEndShifts(t.file, t.checkpoint, t.checkpoint);
    var rest := t.file[t.checkpoint..];
    if LineEnd(t.file, t.checkpoint).None? {
      NoLines(rest);
    } else {
      var end := LineEnd(t.file, t.checkpoint).value;
      FirstLine(rest, end - t.checkpoint);
      assert rest[..end - t.checkpoint] == t.file[t.checkpoint..end] && rest[end - t.checkpoint..] == t.file[end..];
      assert Lines(rest)[0] == t.file[t.checkpoint..end];
      assert Lines(rest) == [t.file[t.checkpoint..end]] + Lines(t.file[end..]);
    }
  }

  ghost function Drop(lines: seq<seq<byte>>, n: nat): seq<seq<byte>> {
    if |lines| <= n then [] else lines[n..]
  }

  lemma DropMoves(line: seq<byte>, lines: seq<seq<byte>>, n: nat, parses: seq<byte> -> bool)
    requires n > 0 && AllParse([line] + lines, parses)
    ensures Drop([line] + lines, n) == Drop(lines, n - 1)
    ensures AllParse(lines, parses)
  {
    assert forall other :: other in lines ==> other in [line] + lines;
  }

  /** The complete lines still to be consumed. */
  ghost function Ahead(t: Tail): seq<seq<byte>>
    requires t.checkpoint <= |t.file|
  {
    Lines(t.file[t.checkpoint..])
  }

  /** An undisturbed poll over parseable lines moves the checkpoint on by a hundred lines or to the last. */
  lemma {:induction false} QuietPollAdvances(t: Tail, turns: seq<Turn>, left: nat, parses: seq<byte> -> bool)
    requires t.checkpoint <= |t.file| && AllParse(Ahead(t), parses)
    requires |turns| >= left && Undisturbed(turns)
    ensures var after := PollSpec(t, turns, left, parses);
      after.file == t.file && after.checkpoint <= |t.file| && Ahead(after) == Drop(Ahead(t), left)
    decreases |turns|
  {
    hide *;
    if left == 0 {
      PollEnds(t, turns, left, parses);
      DropNothing(Ahead(t));
    } else {
      FirstIsUndisturbed(turns);
      PollUnrolls(t, turns, left, parses);
      QuietTurnDrops(t, left, parses);
      var one := ReadOne(t, turns[0], parses);
      if one.1 {
        QuietPollAdvances(one.0, turns[1..], left - 1, parses);
      }
    }
  }

  lemma FirstIsUndisturbed(turns: seq<Turn>)
    requires Undisturbed(turns) && turns != []
    ensures turns[0] == Turn([], Delivered) && Undisturbed(turns[1..])
  {
  }

  lemma QuietTurnDrops(t: Tail, left: nat, parses: seq<byte> -> bool)
    requires t.checkpoint <= |t.file| && left > 0 && AllParse(Ahead(t), parses)
    ensures var one := ReadOne(t, Turn([], Delivered), parses);
      && one.0.file == t.file
      && (one.1 ==> AllParse(Ahead(one.0), parses))
      && Drop(Ahead(t), left) == (if one.1 then Drop(Ahead(one.0), left - 1) else Ahead(one.0))
  {
    hide Lines, Drop, AllParse, ReadOne;
    QuietTurn(t, parses);
    var one := ReadOne(t, Turn([], Delivered), parses);
    if one.1 {
      var line :| Ahead(t) == [line] + Ahead(one.0);
      DropMoves(line, Ahead(one.0), left, parses);
    } else {
      NothingToDrop(left);
    }
  }

  lemma PollEnds(t: Tail, turns: seq<Turn>, left: nat, parses: seq<byte> -> bool)
    requires t.checkpoint <= |t.file| && (turns == [] || left == 0)
    ensures PollSpec(t, turns, left, parses) == t
  {
  }

  lemma PollUnrolls(t: Tail, turns: seq<Turn>, left: nat, parses: seq<byte> -> bool)
    requires t.checkpoint <= |t.file| && turns != [] && left > 0
    ensures var one := ReadOne(t, turns[0], parses);
      PollSpec(t, turns, left, parses) == if one.1 then PollSpec(one.0, turns[1..], left - 1, parses) else one.0
  {
  }

  lemma NothingToDrop(n: nat)
    ensures Drop([], n) == []
  {
  }

  lemma DropNothing(lines: seq<seq<byte>>)
    ensures Drop(lines, 0) == lines
  {
  }

  // ---------------------------------------------------------------- when every line is delivered

  function QuietTurns(n: nat): (turns: seq<Turn>)
    ensures |turns| == n && Undisturbed(turns)
  {
    seq(n, i => Turn([], Delivered))
  }

  /** `n` polls that nothing disturbs. */
  function QuietPolls(n: nat): (polls: seq<Event>)
    ensures |polls| == n && forall i :: 0 <= i < n ==> polls[i] == Poll(QuietTurns(LINES_PER_POLL))
  {
    seq(n, i => Poll(QuietTurns(LINES_PER_POLL)))
  }

  lemma OneMorePoll(events: seq<Event>, n: nat, parses: seq<byte> -> bool)
    ensures Run(events + QuietPolls(n + 1), parses)
         == PollSpec(Run(events + QuietPolls(n), parses), QuietTurns(LINES_PER_POLL), LINES_PER_POLL, parses)
  {
    hide PollSpec, Sound;
    var all := events + QuietPolls(n + 1);
    assert all[..|all| - 1] == events + QuietPolls(n);
    CheckpointIsInside(Run(events + QuietPolls(n), parses), parses);
  }

  lemma {:induction false} QuietPollKeepsFile(t: Tail, turns: seq<Turn>, left: nat, parses: seq<byte> -> bool)
    requires t.checkpoint <= |t.file| && Undisturbed(turns)
    ensures PollSpec(t, turns, left, parses).file == t.file
    decreases |turns|
  {
    if turns != [] && left > 0 {
      assert t.file + [] == t.file;
      QuietPollKeepsFile(ReadOne(t, turns[0], parses).0, turns[1..], left - 1, parses);
    }
  }

  lemma {:induction false} QuietPollsKeepFile(events: seq<Event>, n: nat, parses: seq<byte> -> bool)
    ensures Run(events + QuietPolls(n), parses).file == Run(events, parses).file
  {
    hide Run, PollSpec, Sound;
    if n == 0 {
      assert events + QuietPolls(0) == events;
    } else {
      QuietPollsKeepFile(events, n - 1, parses);
      OneMorePoll(events, n - 1, parses);
      CheckpointIsInside(Run(events + QuietPolls(n - 1), parses), parses);
      QuietPollKeepsFile(Run(events + QuietPolls(n - 1), parses), QuietTurns(LINES_PER_POLL), LINES_PER_POLL, parses);
    }
  }

  /** Behind the checkpoint are lines that were consumed, ahead of it the rest. */
  lemma AheadAreLines(t: Tail, parses: seq<byte> -> bool)
    requires Sound(t, parses)
    ensures t.checkpoint <= |t.file| && Lines(t.file) == Lines(t.file[..t.checkpoint]) + Ahead(t)
    ensures AllParse(Lines(t.file), parses) ==> AllParse(Ahead(t), parses)
  {
    hide Lines, Collapse;
    assert t.file == t.file[..t.checkpoint] + t.file[t.checkpoint..];
    LinesSplit(t.file[..t.checkpoint], t.file[t.checkpoint..]);
    assert forall line :: line in Ahead(t) ==> line in Lines(t.file);
  }

  /** Nothing ahead means that everything was delivered. */
  lemma NothingAhead(t: Tail, parses: seq<byte> -> bool)
    requires Sound(t, parses) && t.checkpoint <= |t.file| && Ahead(t) == []
    ensures Collapse(t.delivered) == Lines(t.file)
  {
    hide Lines, Collapse, Ahead;
    AheadAreLines(t, parses);
    LineIsAhead(t);
  }

  lemma LineIsAhead(t: Tail)
    requires t.checkpoint <= |t.file|
    ensures LineEnd(t.file, t.checkpoint).Some? ==> Ahead(t) != []
  {
    hide Lines;
    LineEndShifts(t.file, t.checkpoint, t.checkpoint);
    var rest := t.file[t.checkpoint..];
    if LineEnd(rest, 0).Some? { FirstLine(rest, LineEnd(rest, 0).value); }
  }

  lemma DropAgain(lines: seq<seq<byte>>, m: nat, n: nat)
    ensures Drop(Drop(lines, m), n) == Drop(lines, m + n)
    ensures |lines| <= m ==> Drop(lines, m) == []
  {
  }

  lemma {:induction false} QuietPollsAdvance(events: seq<Event>, n: nat, parses: seq<byte> -> bool)
    requires AllParse(Lines(Run(events, parses).file), parses)
    ensures var t := Run(events + QuietPolls(n), parses);
      && t.checkpoint <= |t.file| && Run(events, parses).checkpoint <= |Run(events, parses).file|
      && Ahead(t) == Drop(Ahead(Run(events, parses)), n * LINES_PER_POLL)
  {
    hide *;
    AheadAreLines(Run(events, parses), parses);
    if n == 0 {
      assert events + QuietPolls(0) == events;
      DropNothing(Ahead(Run(events, parses)));
    } else {
      var t := Run(events + QuietPolls(n - 1), parses);
      QuietPollsAdvance(events, n - 1, parses);
      QuietPollsKeepFile(events, n - 1, parses);
      AheadAreLines(t, parses);
      OneMorePoll(events, n - 1, parses);
      QuietPollAdvances(t, QuietTurns(LINES_PER_POLL), LINES_PER_POLL, parses);
      DropAgain(Ahead(Run(events, parses)), (n - 1) * LINES_PER_POLL, LINES_PER_POLL);
      assert (n - 1) * LINES_PER_POLL + LINES_PER_POLL == n * LINES_PER_POLL;
    }
  }

  lemma DeliveredParse(t: Tail, parses: seq<byte> -> bool)
    requires Sound(t, parses)
    ensures AllParse(Collapse(t.delivered), parses)
  {
    hide Lines, Collapse, LineEnd;
    CollapsedWereDelivered(t.delivered);
    forall line | line in Collapse(t.delivered) ensures parses(line) {
      var d :| d in t.delivered && d.line == line;
    }
  }

  /** After any run, undisturbed polls come to deliver exactly the complete lines of the file, if and only if all
      of them parse. */
  lemma AllLinesAreDeliveredExactly(events: seq<Event>, parses: seq<byte> -> bool)
    ensures var file := Run(events, parses).file;
      (exists n: nat :: Collapse(Run(events + QuietPolls(n), parses).delivered) == Lines(file))
      <==> AllParse(Lines(file), parses)
  {
    hide Run, Lines, Collapse, AllParse, Sound;
    var file := Run(events, parses).file;
    if AllParse(Lines(file), parses) {
      AheadAreLines(Run(events, parses), parses);
      var n: nat := |Ahead(Run(events, parses))|;
      QuietPollsAdvance(events, n, parses);
      QuietPollsKeepFile(events, n, parses);
      DropAgain(Ahead(Run(events, parses)), n * LINES_PER_POLL, 0);
      NothingAhead(Run(events + QuietPolls(n), parses), parses);
    }
    if n: nat :| Collapse(Run(events + QuietPolls(n), parses).delivered) == Lines(file) {
      DeliveredParse(Run(events + QuietPolls(n), parses), parses);
    }
  }

  // ---------------------------------------------------------------- one turn, byte by byte

  /** The next complete line ends here. */
  ghost predicate NextLineEnds(file: seq<byte>, from: nat, end: nat) {
    from < end <= |file| && file[end - 1] == NEWLINE && forall i :: from <= i < end - 1 ==> file[i] != NEWLINE
  }

  /** A turn takes the next complete line, with whatever has arrived meanwhile: a line that does not parse or is
      refused stays where it is and ends the poll; any other is consumed, and the checkpoint moves behind it unless
      the process crashes first. Without a complete line nothing happens. */
  lemma TurnTakesTheNextLine(t: Tail, turn: Turn, end: nat, parses: seq<byte> -> bool)
    requires t.checkpoint <= |t.file|
    ensures var file, one := t.file + turn.grown, ReadOne(t, turn, parses);
      && one.0.file == file
      && ((forall i :: t.checkpoint <= i < |file| ==> file[i] != NEWLINE) ==>
            one == (Tail(file, t.checkpoint, t.delivered), false))
      && (NextLineEnds(file, t.checkpoint, end) ==>
            var line := file[t.checkpoint..end];
            if !parses(line) || turn.fate == Refused then one == (Tail(file, t.checkpoint, t.delivered), false)
            else one == (Tail(file, if turn.fate == Crashed then t.checkpoint else end,
                              t.delivered + [Delivery(t.checkpoint, line)]), turn.fate != Crashed))
  {
    var file := t.file + turn.grown;
    var found := LineEnd(file, t.checkpoint);
    if found.Some? && NextLineEnds(file, t.checkpoint, end) {
      assert found.value <= end by { assert found.value - 1 < end - 1 || found.value <= end; }
    }
  }

  /** After some bytes have arrived, an undisturbed poll consumes the next hundred complete lines, or all there are. */
  lemma QuietPollTakesAHundred(t: Tail, bytes: seq<byte>, turns: seq<Turn>, parses: seq<byte> -> bool)
    requires t.checkpoint <= |t.file| && |turns| >= 100 && Undisturbed(turns)
    requires AllParse(Lines((t.file + bytes)[t.checkpoint..]), parses)
    ensures var after := Perform(Perform(t, Grow(bytes), parses), Poll(turns), parses);
            var lines := Lines((t.file + bytes)[t.checkpoint..]);
      && after.file == t.file + bytes && after.checkpoint <= |after.file|
      && Lines(after.file[after.checkpoint..]) == if |lines| <= 100 then [] else lines[100..]
  {
    QuietPollAdvances(t.(file := t.file + bytes), turns, LINES_PER_POLL, parses);
  }
}
