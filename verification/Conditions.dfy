/**
Detection conditions: the validator that threads one shared counter through the tree, and the
evaluator that visits every branch and lets no failed leaf turn into a match.

Regular expressions, case folding and Python's comparison rules are not modelled: an `Engine` says
which patterns compile and how a comparison of a present value turns out.
*/
module Conditions {
  import opened Options

  datatype Value =
    | Null
    | Flag(b: bool)
    | Number(n: real)
    | Text(s: string)
    | Items(items: seq<Value>)
    | Object(fields: map<string, Value>)
  {
    predicate Structured() { Items? || Object? }
  }

  datatype Op =
    | Eq | Ne | Gt | Gte | Lt | Lte | In | NotIn
    | Contains | ContainsIgnoreCase | Regex | Exists | NotExists

  /** A condition as it arrives. `Malformed` stands for every shape that is neither a combinator alone
      nor a leaf with known keys and a known operator; a path is already cut at its dots. */
  datatype Condition =
    | Malformed
    | Leaf(path: seq<string>, op: Op, expected: Option<Value>)
    | Not(child: Condition)
    | All(children: seq<Condition>)
    | Any(children: seq<Condition>)

  /** The outcome of comparing a value that is present: a truth value, or a failure with its code. */
  datatype Judgement = Holds(truth: bool) | Fails(code: string)

  datatype Engine = Engine(compiles: string -> bool, judge: (Op, Value, Value) -> Judgement)

  const MAX_DEPTH: nat := 8
  const MAX_NODES: nat := 128
  const MAX_GROUP_CHILDREN: nat := 32
  const MAX_MEMBERSHIP_VALUES: nat := 100
  const MAX_FIELD_LENGTH: nat := 128
  const MAX_REGEX_LENGTH: nat := 512

  // ---------------------------------------------------------------- validation

  function FieldLength(path: seq<string>): nat {
    if path == [] then 0
    else |path[0]| + (if |path| == 1 then 0 else 1 + FieldLength(path[1..]))
  }

  predicate PathOk(path: seq<string>) {
    && path != []
    && (forall i :: 0 <= i < |path| ==> path[i] != "")
    && FieldLength(path) <= MAX_FIELD_LENGTH
  }

  predicate LeafOk(c: Condition, engine: Engine)
    requires c.Leaf?
  {
    && PathOk(c.path)
    && (c.op.Exists? || c.op.NotExists? ||
        (c.expected.Some? &&
         var v := c.expected.value;
         match c.op
         case In | NotIn =>
           v.Items? && 1 <= |v.items| <= MAX_MEMBERSHIP_VALUES && forall x :: x in v.items ==> !x.Structured()
         case Gt | Gte | Lt | Lte => v.Number?
         case Contains | ContainsIgnoreCase => v.Text?
         case Regex => v.Text? && |v.s| <= MAX_REGEX_LENGTH && engine.compiles(v.s)
         case _ => !v.Structured()))
  }

  datatype Reason = TooDeep | TooManyNodes | BadShape | EmptyGroup | TooManyChildren | BadLeaf

  /** The shared counter after a visit, and why the visit stopped if it did. */
  datatype Outcome = Accepted(count: nat) | Refused(reason: Reason, count: nat)

  /** One visit at `depth` that finds the counter at `count`. */
  function Check(c: Condition, depth: nat, count: nat, engine: Engine): Outcome
    decreases c, 1
  {
    if depth > MAX_DEPTH then Refused(TooDeep, count)
    else if count + 1 > MAX_NODES then Refused(TooManyNodes, count + 1)
    else match c
      case Malformed => Refused(BadShape, count + 1)
      case Leaf(_, _, _) => if LeafOk(c, engine) then Accepted(count + 1) else Refused(BadLeaf, count + 1)
      case Not(child) => Check(child, depth + 1, count + 1, engine)
      case All(children) => CheckGroup(children, depth, count + 1, engine)
      case Any(children) => CheckGroup(children, depth, count + 1, engine)
  }

  function CheckGroup(children: seq<Condition>, depth: nat, count: nat, engine: Engine): Outcome
    decreases children, 1
  {
    if children == [] then Refused(EmptyGroup, count)
    else if |children| > MAX_GROUP_CHILDREN then Refused(TooManyChildren, count)
    else CheckEach(children, depth + 1, count, engine)
  }

  function CheckEach(children: seq<Condition>, depth: nat, count: nat, engine: Engine): Outcome
    decreases children, 0
  {
    if children == [] then Accepted(count)
    else
      var first := Check(children[0], depth, count, engine);
      if first.Refused? then first else CheckEach(children[1..], depth, first.count, engine)
  }

  class Counter {
    var value: nat
    constructor ()
      ensures value == 0
    { value := 0; }
  }

  method ValidateNode(c: Condition, depth: nat, counter: Counter, engine: Engine) returns (error: Option<Reason>)
    modifies counter
    ensures Check(c, depth, old(counter.value), engine)
         == (if error.None? then Accepted(counter.value) else Refused(error.value, counter.value))
    decreases c
  {
    if depth > MAX_DEPTH { return Some(TooDeep); }
    counter.value := counter.value + 1;
    if counter.value > MAX_NODES { return Some(TooManyNodes); }
    match c {
      case Malformed => return Some(BadShape);
      case Leaf(_, _, _) => return if LeafOk(c, engine) then None else Some(BadLeaf);
      case Not(child) => error := ValidateNode(child, depth + 1, counter, engine);
      case _ =>
        var children := c.children;
        if children == [] { return Some(EmptyGroup); }
        if |children| > MAX_GROUP_CHILDREN { return Some(TooManyChildren); }
        ghost var start := counter.value;
        for i := 0 to |children|
          invariant CheckEach(children, depth + 1, start, engine)
                 == CheckEach(children[i..], depth + 1, counter.value, engine)
        {
          error := ValidateNode(children[i], depth + 1, counter, engine);
          if error.Some? { return; }
          assert children[i..][1..] == children[i + 1..];
        }
        error := None;
    }
  }

  function Size(c: Condition): nat
    decreases c, 1
  {
    match c
    case Not(child) => 1 + Size(child)
    case All(children) => 1 + TotalSize(children)
    case Any(children) => 1 + TotalSize(children)
    case _ => 1
  }

  function TotalSize(cs: seq<Condition>): nat
    decreases cs, 0
  {
    if cs == [] then 0 else Size(cs[0]) + TotalSize(cs[1..])
  }

  function Height(c: Condition): nat
    decreases c, 1
  {
    match c
    case Not(child) => 1 + Height(child)
    case All(children) => 1 + MaxHeight(children)
    case Any(children) => 1 + MaxHeight(children)
    case _ => 1
  }

  function MaxHeight(cs: seq<Condition>): nat
    decreases cs, 0
  {
    if cs == [] then 0
    else if Height(cs[0]) > MaxHeight(cs[1..]) then Height(cs[0]) else MaxHeight(cs[1..])
  }

  /** Every node has an allowed shape; says nothing about depth or node count. */
  predicate WellShaped(c: Condition, engine: Engine) {
    match c
    case Malformed => false
    case Leaf(_, _, _) => LeafOk(c, engine)
    case Not(child) => WellShaped(child, engine)
    case All(children) => 1 <= |children| <= 32 && forall x :: x in children ==> WellShaped(x, engine)
    case Any(children) => 1 <= |children| <= 32 && forall x :: x in children ==> WellShaped(x, engine)
  }

  /** The counter threaded through the visit amounts to one bound on the whole tree. */
  lemma {:induction false} ThreadedCheckIsGlobalBound(c: Condition, depth: nat, count: nat, engine: Engine)
    ensures Check(c, depth, count, engine).Accepted?
       <==> WellShaped(c, engine) && depth + Height(c) - 1 <= 8 && count + Size(c) <= 128
    ensures Check(c, depth, count, engine).Accepted? ==> Check(c, depth, count, engine).count == count + Size(c)
    decreases c, 1
  {
    match c
    case Malformed =>
    case Leaf(_, _, _) =>
    case Not(child) => ThreadedCheckIsGlobalBound(child, depth + 1, count + 1, engine);
    case _ =>
      if depth <= MAX_DEPTH && count + 1 <= MAX_NODES {
        EachIsGlobalBound(c.children, depth + 1, count + 1, engine);
      }
  }

  lemma {:induction false} EachIsGlobalBound(cs: seq<Condition>, depth: nat, count: nat, engine: Engine)
    requires depth <= MAX_DEPTH + 1 && count <= MAX_NODES
    ensures CheckEach(cs, depth, count, engine).Accepted?
       <==> (forall x :: x in cs ==> WellShaped(x, engine))
            && depth + MaxHeight(cs) - 1 <= MAX_DEPTH && count + TotalSize(cs) <= MAX_NODES
    ensures CheckEach(cs, depth, count, engine).Accepted?
       ==> CheckEach(cs, depth, count, engine).count == count + TotalSize(cs)
    decreases cs, 0
  {
    if cs == [] {
    } else {
      ThreadedCheckIsGlobalBound(cs[0], depth, count, engine);
      var first := Check(cs[0], depth, count, engine);
      assert forall x :: x in cs <==> x == cs[0] || x in cs[1..];
      if first.Accepted? {
        EachIsGlobalBound(cs[1..], depth, first.count, engine);
      }
    }
  }

  predicate Valid(c: Condition, engine: Engine) {
    Check(c, 1, 0, engine).Accepted?
  }

  /** `validate`: a fresh counter at depth one. */
  method Validate(c: Condition, engine: Engine) returns (error: Option<Reason>)
    ensures error.None?
       <==> WellShaped(c, engine) && Height(c) <= 8 && Size(c) <= 128
  {
    var counter := new Counter();
    error := ValidateNode(c, 1, counter, engine);
    ThreadedCheckIsGlobalBound(c, 1, 0, engine);
  }

  /** The name of a field: the parts of its path with dots between them. */
  ghost function Name(path: seq<string>): string {
    if path == [] then "" else if |path| == 1 then path[0] else path[0] + "." + Name(path[1..])
  }

  lemma {:induction false} FieldLengthIsOfTheName(path: seq<string>)
    ensures FieldLength(path) == |Name(path)|
  {
    if |path| > 1 {
      FieldLengthIsOfTheName(path[1..]);
    } else if path != [] {
      assert path[1..] == [];
    }
  }

  ghost predicate Simple(v: Value) { v.Null? || v.Flag? || v.Number? || v.Text? }

  /** A leaf is accepted exactly when its field has a name of at most 128 characters without an empty part, and its
      value is of the kind its operator compares with. */
  lemma LeafIsAcceptedExactly(path: seq<string>, op: Op, expected: Option<Value>, engine: Engine)
    ensures Check(Leaf(path, op, expected), 1, 0, engine).Accepted? <==>
              && 1 <= |path| && "" !in path && |Name(path)| <= 128
              && (op !in [Exists, NotExists] ==>
                    expected.Some?
                    && var v := expected.value;
                    && (op in [Eq, Ne] ==> Simple(v))
                    && (op in [Gt, Gte, Lt, Lte] ==> v.Number?)
                    && (op in [In, NotIn] ==>
                          v.Items? && 1 <= |v.items| <= 100 && forall x :: x in v.items ==> Simple(x))
                    && (op in [Contains, ContainsIgnoreCase, Regex] ==> v.Text?)
                    && (op == Regex ==> |v.s| <= 512 && engine.compiles(v.s)))
  {
    FieldLengthIsOfTheName(path);
  }

  // ---------------------------------------------------------------- evaluation

  datatype Logic = AND | OR | NOT

  datatype Trace =
    | LeafTrace(path: seq<string>, op: Op, expected: Option<Value>, actual: Value, present: bool,
                result: bool, error: Option<string>)
    | GroupTrace(logic: Logic, children: seq<Trace>, result: bool, error: Option<string>)

  function Lookup(path: seq<string>, data: Value): Option<Value> {
    if path == [] then Some(data)
    else if data.Object? && path[0] in data.fields then Lookup(path[1..], data.fields[path[0]])
    else None
  }

  /** What a leaf says of the data, absent and null values included. */
  function JudgeLeaf(leaf: Condition, data: Value, engine: Engine): Judgement
    requires leaf.Leaf? && LeafOk(leaf, engine)
  {
    var found := Lookup(leaf.path, data);
    var absent := found.None? || found.value.Null?;
    match leaf.op
    case Exists => Holds(!absent)
    case NotExists => Holds(absent)
    case _ => if absent then Holds(false) else engine.judge(leaf.op, leaf.expected.value, found.value)
  }

  /** A path is followed part by part through objects. */
  lemma {:induction false} LookupFollowsThePath(path: seq<string>, part: string, data: Value)
    ensures Lookup([], data) == Some(data)
    ensures var found := Lookup(path, data);
      Lookup(path + [part], data)
        == if found.Some? && found.value.Object? && part in found.value.fields then Some(found.value.fields[part])
           else None
  {
    if path == [] {
      assert [] + [part] == [part] && [part][1..] == [];
    } else {
      assert (path + [part])[1..] == path[1..] + [part];
      if data.Object? && path[0] in data.fields {
        LookupFollowsThePath(path[1..], part, data.fields[path[0]]);
      }
    }
  }

  function FirstError(traces: seq<Trace>): Option<string> {
    if traces == [] then None
    else if traces[0].error.Some? then traces[0].error
    else FirstError(traces[1..])
  }

  function Combine(logic: Logic, children: seq<Trace>): Trace
    requires logic.NOT? ==> |children| == 1
  {
    var truth := match logic
      case AND => forall i :: 0 <= i < |children| ==> children[i].result
      case OR => exists i :: 0 <= i < |children| && children[i].result
      case NOT => !children[0].result;
    var error := FirstError(children);
    GroupTrace(logic, children, error.None? && truth, error)
  }

  function Evaluate(c: Condition, data: Value, engine: Engine): Trace
    requires WellShaped(c, engine)
    decreases c, 1
  {
    match c
    case Leaf(path, op, expected) =>
      var found := Lookup(path, data);
      var actual := if found.Some? then found.value else Null;
      (match JudgeLeaf(c, data, engine)
       case Holds(truth) => LeafTrace(path, op, expected, actual, found.Some?, truth, None)
       case Fails(code) => LeafTrace(path, op, expected, actual, found.Some?, false, Some(code)))
    case Not(child) => Combine(NOT, [Evaluate(child, data, engine)])
    case All(children) => Combine(AND, EvaluateEach(children, data, engine))
    case Any(children) => Combine(OR, EvaluateEach(children, data, engine))
  }

  function EvaluateEach(cs: seq<Condition>, data: Value, engine: Engine): (traces: seq<Trace>)
    requires forall x :: x in cs ==> WellShaped(x, engine)
    ensures |traces| == |cs|
    ensures forall i :: 0 <= i < |cs| ==> traces[i] == Evaluate(cs[i], data, engine)
    decreases cs, 0
  {
    seq(|cs|, i requires 0 <= i < |cs| => Evaluate(cs[i], data, engine))
  }

  /** `explain`: validation, then evaluation; an invalid condition raises instead. */
  function Explain(c: Condition, data: Value, engine: Engine): Option<Trace> {
    ThreadedCheckIsGlobalBound(c, 1, 0, engine);
    if Valid(c, engine) then Some(Evaluate(c, data, engine)) else None
  }

  // ---------------------------------------------------------------- error-strict Boolean logic

  /** The classical value of a condition, a failed leaf counting as false. */
  predicate Classical(c: Condition, data: Value, engine: Engine)
    requires WellShaped(c, engine)
  {
    match c
    case Leaf(_, _, _) => JudgeLeaf(c, data, engine) == Holds(true)
    case Not(child) => !Classical(child, data, engine)
    case All(children) => forall i :: 0 <= i < |children| ==> Classical(children[i], data, engine)
    case Any(children) => exists i :: 0 <= i < |children| && Classical(children[i], data, engine)
  }

  /** The failure codes of all leaves, left to right. */
  function Failures(c: Condition, data: Value, engine: Engine): seq<string>
    requires WellShaped(c, engine)
    decreases c, 1
  {
    match c
    case Leaf(_, _, _) => (match JudgeLeaf(c, data, engine) case Holds(_) => [] case Fails(code) => [code])
    case Not(child) => Failures(child, data, engine)
    case All(children) => AllFailures(children, data, engine)
    case Any(children) => AllFailures(children, data, engine)
  }

  function AllFailures(cs: seq<Condition>, data: Value, engine: Engine): seq<string>
    requires forall x :: x in cs ==> WellShaped(x, engine)
    decreases cs, 0
  {
    if cs == [] then [] else Failures(cs[0], data, engine) + AllFailures(cs[1..], data, engine)
  }

  function Head(codes: seq<string>): Option<string> {
    if codes == [] then None else Some(codes[0])
  }

  /** The evaluator is classical logic when no leaf fails; otherwise it answers false and reports the
      first failure in reading order. */
  lemma {:induction false} EvaluationIsErrorStrict(c: Condition, data: Value, engine: Engine)
    requires WellShaped(c, engine)
    ensures Evaluate(c, data, engine).error == Head(Failures(c, data, engine))
    ensures Evaluate(c, data, engine).result <==> Failures(c, data, engine) == [] && Classical(c, data, engine)
    decreases c, 1
  {
    match c
    case Leaf(_, _, _) =>
    case Not(child) =>
      EvaluationIsErrorStrict(child, data, engine);
      var traces := [Evaluate(child, data, engine)];
      assert FirstError(traces[1..]) == None;
    case All(children) => ChildrenAreErrorStrict(children, data, engine);
    case Any(children) => ChildrenAreErrorStrict(children, data, engine);
  }

  lemma {:induction false} ChildrenAreErrorStrict(cs: seq<Condition>, data: Value, engine: Engine)
    requires forall x :: x in cs ==> WellShaped(x, engine)
    ensures var traces := EvaluateEach(cs, data, engine);
      && FirstError(traces) == Head(AllFailures(cs, data, engine))
      && (FirstError(traces).None? ==>
          forall i :: 0 <= i < |cs| ==> traces[i].result == Classical(cs[i], data, engine))
    decreases cs, 1
  {
    var traces := EvaluateEach(cs, data, engine);
    FirstErrorIsFirstFailure(cs, traces, data, engine);
    if FirstError(traces).None? {
      forall i | 0 <= i < |cs| ensures traces[i].result == Classical(cs[i], data, engine) {
        EvaluationIsErrorStrict(cs[i], data, engine);
        NoFailureInAny(cs, i, data, engine);
      }
    }
  }

  lemma {:induction false} FirstErrorIsFirstFailure(
      cs: seq<Condition>, traces: seq<Trace>, data: Value, engine: Engine)
    requires |traces| == |cs|
    requires forall x :: x in cs ==> WellShaped(x, engine)
    requires forall i :: 0 <= i < |cs| ==> traces[i] == Evaluate(cs[i], data, engine)
    ensures FirstError(traces) == Head(AllFailures(cs, data, engine))
    decreases cs, 0
  {
    if cs == [] {
    } else {
      EvaluationIsErrorStrict(cs[0], data, engine);
      FirstErrorIsFirstFailure(cs[1..], traces[1..], data, engine);
    }
  }

  lemma {:induction false} NoFailureInAny(cs: seq<Condition>, i: nat, data: Value, engine: Engine)
    requires forall x :: x in cs ==> WellShaped(x, engine)
    requires i < |cs| && AllFailures(cs, data, engine) == []
    ensures Failures(cs[i], data, engine) == []
  {
    if i > 0 {
      NoFailureInAny(cs[1..], i - 1, data, engine);
    }
  }

  lemma {:induction false} FailureInSome(cs: seq<Condition>, data: Value, engine: Engine)
    requires forall x :: x in cs ==> WellShaped(x, engine)
    ensures AllFailures(cs, data, engine) == []
       <==> forall x :: x in cs ==> Failures(x, data, engine) == []
  {
    if cs == [] {
    } else {
      FailureInSome(cs[1..], data, engine);
      assert forall x :: x in cs <==> x == cs[0] || x in cs[1..];
      assert cs[0] in cs;
    }
  }

  /** The trace of a leaf says what was asked and what was found. A field that is absent or null matches only if that
      is what is asked for, and is no failure; any other is compared. */
  lemma LeafAnswers(path: seq<string>, op: Op, expected: Option<Value>, data: Value, engine: Engine)
    requires WellShaped(Leaf(path, op, expected), engine)
    ensures var t, found := Evaluate(Leaf(path, op, expected), data, engine), Lookup(path, data);
      && t.LeafTrace? && t.path == path && t.op == op && t.expected == expected
      && t.present == found.Some? && t.actual == (if found.Some? then found.value else Null)
      && (found == None || found == Some(Null) ==> t.error == None && (t.result <==> op == NotExists))
      && (found.Some? && found.value != Null ==>
            if op in [Exists, NotExists] then t.error == None && (t.result <==> op == Exists)
            else match engine.judge(op, expected.value, found.value)
                 case Holds(truth) => t.error == None && t.result == truth
                 case Fails(code) => t.error == Some(code) && !t.result)
  {
  }

  /** A match under NOT proves that the negated condition was evaluated without failure. */
  lemma NegationNeverMatchesOnError(c: Condition, data: Value, engine: Engine)
    requires WellShaped(c, engine)
    ensures Evaluate(Not(c), data, engine).result
       <==> Failures(c, data, engine) == [] && !Evaluate(c, data, engine).result
  {
    EvaluationIsErrorStrict(c, data, engine);
    EvaluationIsErrorStrict(Not(c), data, engine);
  }

  lemma DoubleNegation(c: Condition, data: Value, engine: Engine)
    requires WellShaped(c, engine)
    ensures Evaluate(Not(Not(c)), data, engine).result == Evaluate(c, data, engine).result
    ensures Evaluate(Not(Not(c)), data, engine).error == Evaluate(c, data, engine).error
  {
    EvaluationIsErrorStrict(c, data, engine);
    EvaluationIsErrorStrict(Not(Not(c)), data, engine);
  }

  function Negated(cs: seq<Condition>): (ns: seq<Condition>)
    ensures |ns| == |cs| && forall i :: 0 <= i < |cs| ==> ns[i] == Not(cs[i])
  {
    seq(|cs|, i requires 0 <= i < |cs| => Not(cs[i]))
  }

  lemma DeMorgan(cs: seq<Condition>, data: Value, engine: Engine)
    requires WellShaped(All(cs), engine)
    ensures Evaluate(Not(All(cs)), data, engine).result == Evaluate(Any(Negated(cs)), data, engine).result
    ensures Evaluate(Not(All(cs)), data, engine).error == Evaluate(Any(Negated(cs)), data, engine).error
    ensures Evaluate(Not(Any(cs)), data, engine).result == Evaluate(All(Negated(cs)), data, engine).result
    ensures Evaluate(Not(Any(cs)), data, engine).error == Evaluate(All(Negated(cs)), data, engine).error
  {
    NegatedFailures(cs, data, engine);
    NegatedClassical(cs, data, engine);
    EvaluationIsErrorStrict(Not(All(cs)), data, engine);
    EvaluationIsErrorStrict(Any(Negated(cs)), data, engine);
    EvaluationIsErrorStrict(Not(Any(cs)), data, engine);
    EvaluationIsErrorStrict(All(Negated(cs)), data, engine);
  }

  lemma NegatedClassical(cs: seq<Condition>, data: Value, engine: Engine)
    requires WellShaped(All(cs), engine)
    ensures WellShaped(All(Negated(cs)), engine)
    ensures Classical(Any(Negated(cs)), data, engine) == !Classical(All(cs), data, engine)
    ensures Classical(All(Negated(cs)), data, engine) == !Classical(Any(cs), data, engine)
  {
    var ns := Negated(cs);
    assert forall i :: 0 <= i < |cs| ==> Classical(ns[i], data, engine) == !Classical(cs[i], data, engine);
  }

  lemma {:induction false} NegatedFailures(cs: seq<Condition>, data: Value, engine: Engine)
    requires forall x :: x in cs ==> WellShaped(x, engine)
    ensures AllFailures(Negated(cs), data, engine) == AllFailures(cs, data, engine)
  {
    if cs != [] {
      assert Negated(cs)[1..] == Negated(cs[1..]);
      NegatedFailures(cs[1..], data, engine);
    }
  }

  /** Reordering the children of a group changes neither the answer nor whether it is an error. */
  lemma ChildOrderIsIrrelevant(cs: seq<Condition>, ds: seq<Condition>, data: Value, engine: Engine)
    requires multiset(cs) == multiset(ds)
    requires WellShaped(All(cs), engine)
    ensures WellShaped(All(ds), engine)
    ensures Evaluate(All(cs), data, engine).result == Evaluate(All(ds), data, engine).result
    ensures Evaluate(Any(cs), data, engine).result == Evaluate(Any(ds), data, engine).result
    ensures Evaluate(All(cs), data, engine).error.Some? == Evaluate(All(ds), data, engine).error.Some?
  {
    hide Evaluate, Failures, Classical, LeafOk;
    assert |cs| == |multiset(cs)| == |ds|;
    assert forall x :: x in cs <==> x in multiset(cs);
    assert forall x :: x in ds <==> x in multiset(ds);
    GroupByMembership(cs, data, engine);
    GroupByMembership(ds, data, engine);
  }

  /** What a group answers depends on which children it has, not on where they stand. */
  lemma GroupByMembership(cs: seq<Condition>, data: Value, engine: Engine)
    requires WellShaped(All(cs), engine)
    ensures Evaluate(All(cs), data, engine).error.Some? <==> exists x :: x in cs && Failures(x, data, engine) != []
    ensures Evaluate(All(cs), data, engine).result
       <==> forall x :: x in cs ==> Failures(x, data, engine) == [] && Classical(x, data, engine)
    ensures Evaluate(Any(cs), data, engine).result
       <==> (forall x :: x in cs ==> Failures(x, data, engine) == [])
            && exists x :: x in cs && Classical(x, data, engine)
  {
    hide Evaluate, Classical, JudgeLeaf, LeafOk;
    FailureInSome(cs, data, engine);
    ClassicalByMembership(cs, data, engine);
    EvaluationIsErrorStrict(All(cs), data, engine);
    EvaluationIsErrorStrict(Any(cs), data, engine);
  }

  lemma ClassicalByMembership(cs: seq<Condition>, data: Value, engine: Engine)
    requires WellShaped(All(cs), engine)
    ensures Classical(All(cs), data, engine) <==> forall x :: x in cs ==> Classical(x, data, engine)
    ensures Classical(Any(cs), data, engine) <==> exists x :: x in cs && Classical(x, data, engine)
  {
    if Classical(All(cs), data, engine) {
      forall x | x in cs ensures Classical(x, data, engine) {
        var i :| 0 <= i < |cs| && cs[i] == x;
      }
    } else {
      var i :| 0 <= i < |cs| && !Classical(cs[i], data, engine);
      assert cs[i] in cs;
    }
    if x :| x in cs && Classical(x, data, engine) {
      var i :| 0 <= i < |cs| && cs[i] == x;
      assert Classical(cs[i], data, engine);
    }
  }
}
