/**
Policy evaluation and selection: one policy against a context, the sort-and-take-first engine, and
the loop in the detection pipeline that records every evaluation and queues at most one command.
*/
module Policies {
  import opened Options
  import opened Conditions

  /** The sort key after case folding of code and identifier. */
  datatype SortKey = SortKey(priority: int, code: string, id: string)

  datatype Mode = AlertOnly | Enforce | UnknownMode

  /** `condition` is None where the stored definition has none or an empty one. */
  datatype Policy = Policy(
    policyId: string, key: SortKey, mode: Mode, action: string, enabled: bool, allowOffline: bool,
    linkedRule: Option<string>, minRisk: real, maxRisk: real, condition: Option<Condition>)

  type Context = map<string, Value>

  /** What the evaluation of one policy leaves behind; `inner` is None where the condition is invalid. */
  datatype PolicyTrace = PolicyTrace(eligible: bool, inner: Option<Trace>, result: bool)

  datatype Decision = Decision(policyId: string, action: string, mode: Mode, triggered: bool, trace: PolicyTrace)

  const OFFLINE := Text("AGENT_OFFLINE")

  predicate Reads(context: Context, name: string, v: Value) {
    name in context && context[name] == v
  }

  predicate Eligible(p: Policy, context: Context) {
    && p.enabled
    && (p.linkedRule.None? || p.linkedRule.value == "" ||
        Reads(context, "rule_id", Text(p.linkedRule.value)) || Reads(context, "rule_code", Text(p.linkedRule.value)))
    && !p.mode.UnknownMode?
    && (Reads(context, "execution_source", OFFLINE) ==> p.allowOffline)
  }

  function EffectiveCondition(p: Policy): Condition {
    match p.condition
    case Some(c) => c
    case None => All([Leaf(["risk_score"], Gte, Some(Number(p.minRisk))),
                      Leaf(["risk_score"], Lte, Some(Number(p.maxRisk)))])
  }

  /** `evaluate_single_policy`. */
  function Decide(p: Policy, context: Context, engine: Engine): Decision {
    var eligible := Eligible(p, context);
    var inner := Explain(EffectiveCondition(p), Object(context), engine);
    var triggered := eligible && inner.Some? && inner.value.result;
    Decision(p.policyId, p.action, p.mode, triggered, PolicyTrace(eligible, inner, triggered))
  }

  predicate Triggered(p: Policy, context: Context, engine: Engine) {
    Decide(p, context, engine).triggered
  }

  /** A policy triggers exactly when it is enabled, not linked to another rule, in a known mode, allowed offline if it
      is evaluated there, and its condition is valid and matches. The decision names the policy's action and mode. */
  lemma TriggersExactly(p: Policy, context: Context, engine: Engine)
    ensures Decide(p, context, engine).triggered <==>
              && p.enabled && p.mode in [AlertOnly, Enforce]
              && (p.linkedRule.Some? && p.linkedRule.value != "" ==>
                    || ("rule_id" in context && context["rule_id"] == Text(p.linkedRule.value))
                    || ("rule_code" in context && context["rule_code"] == Text(p.linkedRule.value)))
              && ("execution_source" in context && context["execution_source"] == Text("AGENT_OFFLINE") ==>
                    p.allowOffline)
              && Valid(EffectiveCondition(p), engine)
              && (WellShaped(EffectiveCondition(p), engine) ==>
                    Evaluate(EffectiveCondition(p), Object(context), engine).result)
    ensures var d := Decide(p, context, engine);
      d.policyId == p.policyId && d.action == p.action && d.mode == p.mode && d.trace.result == d.triggered
    ensures Decide(p, context, engine).trace.inner.Some? <==> Valid(EffectiveCondition(p), engine)
    ensures WellShaped(EffectiveCondition(p), engine) && Valid(EffectiveCondition(p), engine) ==>
              Decide(p, context, engine).trace.inner
                == Some(Evaluate(EffectiveCondition(p), Object(context), engine))
  {
    hide Evaluate, Check, WellShaped;
    ThreadedCheckIsGlobalBound(EffectiveCondition(p), 1, 0, engine);
  }

  /** A policy without a condition of its own matches the risk scores from its minimum to its maximum. */
  lemma PolicyMatchesItsBand(p: Policy, context: Context, risk: real, engine: Engine)
    requires p.condition.None? && "risk_score" in context && context["risk_score"] == Number(risk)
    requires forall bound: real, x: real ::
               && engine.judge(Gte, Number(bound), Number(x)) == Holds(x >= bound)
               && engine.judge(Lte, Number(bound), Number(x)) == Holds(x <= bound)
    ensures Valid(EffectiveCondition(p), engine) && WellShaped(EffectiveCondition(p), engine)
    ensures Evaluate(EffectiveCondition(p), Object(context), engine).result <==> p.minRisk <= risk <= p.maxRisk
  {
    var low := Leaf(["risk_score"], Gte, Some(Number(p.minRisk)));
    var high := Leaf(["risk_score"], Lte, Some(Number(p.maxRisk)));
    assert EffectiveCondition(p) == All([low, high]);
    NameIsShort(engine, low, high);
    LookupFollowsThePath([], "risk_score", Object(context));
    assert [] + ["risk_score"] == ["risk_score"];
    LeafAnswers(["risk_score"], Gte, Some(Number(p.minRisk)), Object(context), engine);
    LeafAnswers(["risk_score"], Lte, Some(Number(p.maxRisk)), Object(context), engine);
    hide Evaluate, Lookup;
    PairMatches(low, high, Object(context), engine);
  }

  lemma NameIsShort(engine: Engine, low: Condition, high: Condition)
    requires low.Leaf? && low.path == ["risk_score"] && low.op == Gte
    requires high.Leaf? && high.path == ["risk_score"] && high.op == Lte
    requires low.expected.Some? && low.expected.value.Number?
    requires high.expected.Some? && high.expected.value.Number?
    ensures WellShaped(low, engine) && WellShaped(high, engine) && WellShaped(All([low, high]), engine)
    ensures Valid(All([low, high]), engine)
  {
    assert FieldLength(["risk_score"]) == 10;
    assert LeafOk(low, engine) && LeafOk(high, engine);
    PairIsSmall(low, high);
    ThreadedCheckIsGlobalBound(All([low, high]), 1, 0, engine);
  }

  lemma PairIsSmall(low: Condition, high: Condition)
    requires low.Leaf? && high.Leaf?
    ensures Height(All([low, high])) == 2 && Size(All([low, high])) == 3
  {
    var both, last := [low, high], [high];
    assert last[1..] == [] && both[1..] == last;
    assert MaxHeight(last[1..]) == 0 && TotalSize(last[1..]) == 0;
    assert Height(low) == 1 && Size(low) == 1 && Height(high) == 1 && Size(high) == 1;
    assert MaxHeight(last) == 1 && TotalSize(last) == 1;
    assert MaxHeight(both) == 1 && TotalSize(both) == 2;
  }

  lemma PairMatches(a: Condition, b: Condition, data: Value, engine: Engine)
    requires WellShaped(a, engine) && WellShaped(b, engine) && WellShaped(All([a, b]), engine)
    requires Evaluate(a, data, engine).error.None? && Evaluate(b, data, engine).error.None?
    ensures Evaluate(All([a, b]), data, engine).result
       <==> Evaluate(a, data, engine).result && Evaluate(b, data, engine).result
  {
    NoErrorInPair(Evaluate(a, data, engine), Evaluate(b, data, engine));
    assert EvaluateEach([a, b], data, engine) == [Evaluate(a, data, engine), Evaluate(b, data, engine)];
  }

  lemma NoErrorInPair(a: Trace, b: Trace)
    requires a.error.None? && b.error.None?
    ensures FirstError([a, b]) == None
  {
    assert [a, b][1..] == [b] && [b][1..] == [];
    assert FirstError([b]) == None;
  }

  // ---------------------------------------------------------------- the order of policies

  predicate TextLess(s: string, t: string) {
    t != [] && (s == [] || s[0] < t[0] || (s[0] == t[0] && TextLess(s[1..], t[1..])))
  }

  predicate Before(a: SortKey, b: SortKey) {
    a.priority < b.priority ||
    (a.priority == b.priority && (TextLess(a.code, b.code) || (a.code == b.code && TextLess(a.id, b.id))))
  }

  lemma {:induction false} TextOrderIsTotal(s: string, t: string)
    ensures TextLess(s, t) || s == t || TextLess(t, s)
    ensures !(TextLess(s, t) && TextLess(t, s)) && !TextLess(s, s)
  {
    if s != [] && t != [] {
      TextOrderIsTotal(s[1..], t[1..]);
      TextOrderIsTotal(s[1..], s[1..]);
      assert s == [s[0]] + s[1..] && t == [t[0]] + t[1..];
    } else if s != [] {
      TextOrderIsTotal(s[1..], s[1..]);
    }
  }

  lemma {:induction false} TextOrderIsTransitive(s: string, t: string, u: string)
    requires TextLess(s, t) && TextLess(t, u)
    ensures TextLess(s, u)
  {
    if s != [] && s[0] == t[0] == u[0] {
      TextOrderIsTransitive(s[1..], t[1..], u[1..]);
    }
  }

  /** Alphabetical order: a prefix comes first, and otherwise the first different character decides. */
  ghost predicate Alphabetical(s: string, t: string) {
    exists k :: 0 <= k <= |s| && k < |t| && s[..k] == t[..k] && (k == |s| || s[k] < t[k])
  }

  lemma {:induction false} TextOrderIsAlphabetical(s: string, t: string)
    ensures TextLess(s, t) <==> Alphabetical(s, t)
  {
    if s == [] || t == [] || s[0] < t[0] {
      if t != [] { assert s[..0] == t[..0]; }
    } else if s[0] == t[0] {
      var u, v := s[1..], t[1..];
      TextOrderIsAlphabetical(u, v);
      if k :| 0 <= k <= |s| && k < |t| && s[..k] == t[..k] && (k == |s| || s[k] < t[k]) {
        if k > 0 {
          assert u[..k - 1] == s[..k][1..] && v[..k - 1] == t[..k][1..];
        }
      }
      if k :| 0 <= k <= |u| && k < |v| && u[..k] == v[..k] && (k == |u| || u[k] < v[k]) {
        assert s[..k + 1] == [s[0]] + u[..k] && t[..k + 1] == [t[0]] + v[..k];
      }
    } else if k :| 0 <= k <= |s| && k < |t| && s[..k] == t[..k] && (k == |s| || s[k] < t[k]) {
      assert k > 0 ==> s[..k][0] == t[..k][0];
    }
  }

  /** The key does not come behind the other: the smaller priority decides, then the code, then the identifier. */
  ghost predicate NotBehind(a: SortKey, b: SortKey) {
    || a.priority < b.priority
    || (a.priority == b.priority
        && (Alphabetical(a.code, b.code)
            || (a.code == b.code && (Alphabetical(a.id, b.id) || a.id == b.id))))
  }

  lemma BeforeIsBehind(a: SortKey, b: SortKey)
    ensures !Before(b, a) <==> NotBehind(a, b)
  {
    hide Alphabetical, TextLess;
    TextOrderIsAlphabetical(a.code, b.code);
    TextOrderIsAlphabetical(a.id, b.id);
    TextOrderIsTotal(a.code, b.code);
    TextOrderIsTotal(a.id, b.id);
    TextOrderIsTotal(a.code, a.code);
  }

  /** Policies come in the strict total order of their keys. */
  lemma KeyOrderIsTotal(a: SortKey, b: SortKey)
    ensures Before(a, b) || a == b || Before(b, a)
    ensures !(Before(a, b) && Before(b, a)) && !Before(a, a)
  {
    TextOrderIsTotal(a.code, b.code);
    TextOrderIsTotal(a.id, b.id);
    TextOrderIsTotal(a.code, a.code);
    TextOrderIsTotal(a.id, a.id);
  }

  lemma KeyOrderIsTransitive(a: SortKey, b: SortKey, c: SortKey)
    requires !Before(b, a) && !Before(c, b)
    ensures !Before(c, a)
  {
    if Before(c, a) {
      KeyOrderIsTotal(a, b);
      KeyOrderIsTotal(b, c);
      if b != c && a != b && a.priority == b.priority == c.priority {
        if TextLess(b.code, c.code) && TextLess(c.code, a.code) {
          TextOrderIsTransitive(b.code, c.code, a.code);
        }
        if TextLess(a.code, b.code) && TextLess(b.code, c.code) {
          TextOrderIsTransitive(a.code, b.code, c.code);
        }
        if TextLess(a.id, b.id) && TextLess(b.id, c.id) {
          TextOrderIsTransitive(a.id, b.id, c.id);
        }
        TextOrderIsTotal(a.code, c.code);
        TextOrderIsTotal(a.id, c.id);
        TextOrderIsTotal(a.code, b.code);
        TextOrderIsTotal(b.code, c.code);
      }
    }
  }

  /** Stable insertion: behind every policy whose key is not greater. */
  function Insert(p: Policy, sorted: seq<Policy>): seq<Policy> {
    if sorted == [] then [p]
    else if Before(sorted[0].key, p.key) then [sorted[0]] + Insert(p, sorted[1..])
    else [p] + sorted
  }

  /** `sorted(policies, key=policy_sort_key)`. */
  function Sorted(ps: seq<Policy>): seq<Policy> {
    if ps == [] then [] else Insert(ps[0], Sorted(ps[1..]))
  }

  predicate InOrder(ps: seq<Policy>) {
    forall i, j :: 0 <= i < j < |ps| ==> !Before(ps[j].key, ps[i].key)
  }

  lemma {:induction false} InsertAdds(p: Policy, sorted: seq<Policy>)
    ensures multiset(Insert(p, sorted)) == multiset{p} + multiset(sorted)
    ensures forall q :: q in Insert(p, sorted) ==> q == p || q in sorted
  {
    hide Before;
    if sorted != [] && Before(sorted[0].key, p.key) {
      InsertAdds(p, sorted[1..]);
      assert sorted == [sorted[0]] + sorted[1..];
    }
  }

  lemma {:induction false} InsertKeepsOrder(p: Policy, sorted: seq<Policy>)
    requires InOrder(sorted)
    ensures InOrder(Insert(p, sorted))
  {
    hide Before;
    if sorted == [] {
    } else if Before(sorted[0].key, p.key) {
      InsertKeepsOrder(p, sorted[1..]);
      InsertAdds(p, sorted[1..]);
      KeyOrderIsTotal(sorted[0].key, p.key);
      Prepend(sorted[0], Insert(p, sorted[1..]));
    } else {
      KeyOrderIsTotal(sorted[0].key, sorted[0].key);
      forall q | q in sorted ensures !Before(q.key, p.key) {
        KeyOrderIsTransitive(p.key, sorted[0].key, q.key);
      }
      Prepend(p, sorted);
    }
  }

  lemma Prepend(p: Policy, ps: seq<Policy>)
    requires InOrder(ps) && forall q :: q in ps ==> !Before(q.key, p.key)
    ensures InOrder([p] + ps)
  {
  }

  lemma {:induction false} SortedIsAnOrderedPermutation(ps: seq<Policy>)
    ensures InOrder(Sorted(ps)) && multiset(Sorted(ps)) == multiset(ps) && |Sorted(ps)| == |ps|
  {
    if ps == [] {
    } else {
      SortedIsAnOrderedPermutation(ps[1..]);
      InsertKeepsOrder(ps[0], Sorted(ps[1..]));
      InsertAdds(ps[0], Sorted(ps[1..]));
      assert ps == [ps[0]] + ps[1..];
    }
    assert |multiset(Sorted(ps))| == |multiset(ps)|;
  }

  // ---------------------------------------------------------------- selection

  function FirstTriggered(ps: seq<Policy>, context: Context, engine: Engine): Option<Policy> {
    if ps == [] then None
    else if Triggered(ps[0], context, engine) then Some(ps[0])
    else FirstTriggered(ps[1..], context, engine)
  }

  /** `ZTAPolicyEngine.evaluate`, naming the policy whose decision it returns. */
  function Winner(ps: seq<Policy>, context: Context, engine: Engine): Option<Policy> {
    FirstTriggered(Sorted(ps), context, engine)
  }

  lemma {:induction false} FirstTriggeredAt(ps: seq<Policy>, context: Context, engine: Engine) returns (at: nat)
    ensures match FirstTriggered(ps, context, engine)
      case None => at == |ps| && forall p :: p in ps ==> !Triggered(p, context, engine)
      case Some(w) => at < |ps| && ps[at] == w && Triggered(w, context, engine)
                      && forall i :: 0 <= i < at ==> !Triggered(ps[i], context, engine)
  {
    if ps == [] {
      at := 0;
    } else if Triggered(ps[0], context, engine) {
      at := 0;
    } else {
      at := FirstTriggeredAt(ps[1..], context, engine);
      at := at + 1;
      assert forall p :: p in ps <==> p == ps[0] || p in ps[1..];
    }
  }

  ghost predicate LeastTriggered(w: Policy, ps: seq<Policy>, context: Context, engine: Engine) {
    && w in ps && Triggered(w, context, engine)
    && forall p :: p in ps && Triggered(p, context, engine) ==> NotBehind(w.key, p.key)
  }

  /** Selection is an argmin over the triggered policies. */
  lemma WinnerIsLeastTriggered(ps: seq<Policy>, context: Context, engine: Engine)
    ensures match Winner(ps, context, engine)
      case None => forall p :: p in ps ==> !Triggered(p, context, engine)
      case Some(w) => LeastTriggered(w, ps, context, engine)
  {
    hide Sorted, Triggered, Before, NotBehind, FirstTriggered;
    var sorted := Sorted(ps);
    SortedIsAnOrderedPermutation(ps);
    assert forall p :: p in sorted <==> p in multiset(sorted);
    assert forall p :: p in ps <==> p in multiset(ps);
    var at := FirstTriggeredAt(sorted, context, engine);
    if at < |sorted| {
      var w := sorted[at];
      forall p | p in sorted && Triggered(p, context, engine) ensures NotBehind(w.key, p.key) {
        var i :| 0 <= i < |sorted| && sorted[i] == p;
        KeyOrderIsTotal(w.key, w.key);
        BeforeIsBehind(w.key, p.key);
      }
    }
  }

  ghost predicate DistinctKeys(ps: seq<Policy>) {
    forall p, q :: p in ps && q in ps && p.key == q.key ==> p == q
  }

  /** With distinct keys the stored order of the policies does not matter. */
  lemma SelectionIgnoresListOrder(ps: seq<Policy>, qs: seq<Policy>, context: Context, engine: Engine)
    requires multiset(ps) == multiset(qs) && DistinctKeys(ps)
    ensures Winner(ps, context, engine) == Winner(qs, context, engine)
  {
    WinnerIsLeastTriggered(ps, context, engine);
    WinnerIsLeastTriggered(qs, context, engine);
    assert forall p :: p in ps <==> p in multiset(ps);
    assert forall p :: p in qs <==> p in multiset(qs);
    var v, w := Winner(ps, context, engine), Winner(qs, context, engine);
    if v.Some? && w.Some? {
      KeyOrderIsTotal(v.value.key, w.value.key);
      BeforeIsBehind(v.value.key, w.value.key);
      BeforeIsBehind(w.value.key, v.value.key);
    }
  }

  /** Two policies whose codes and identifiers differ only in case share a key, and then order decides. */
  lemma TiedKeysFollowListOrder(p: Policy, q: Policy, context: Context, engine: Engine)
    requires p.key == q.key && Triggered(p, context, engine) && Triggered(q, context, engine)
    ensures Winner([p, q], context, engine) == Some(p) && Winner([q, p], context, engine) == Some(q)
  {
    KeyOrderIsTotal(p.key, q.key);
    assert [p, q][1..] == [q] && [q, p][1..] == [p];
    assert Sorted([q]) == [q] by { assert [q][1..] == []; }
    assert Sorted([p]) == [p] by { assert [p][1..] == []; }
  }

  // ---------------------------------------------------------------- the pipeline's loop for one match

  datatype Status = Evaluated | NotSelected | RecommendedOnly | NotExecuted | HistoricalOnly | Blocked | Queued

  datatype PolicyEvaluation = PolicyEvaluation(decision: Decision, status: Status)

  datatype Command = Command(policyId: string, action: string)

  /** Facts fixed for one rule match. `reobserved`: an open incident for this event and rule exists. */
  datatype Situation = Situation(offline: bool, offlineEnforcement: bool, reobserved: bool)

  predicate PassiveAction(action: string) {
    action in ["MONITOR", "ALERT", "NOTIFY_SOC"]
  }

  predicate DestructiveOffline(action: string) {
    action in ["KILL_PROCESS", "LOGOUT_USER", "LOGOFF_USER", "LOGOUT_SESSION", "LOCK_LOCAL_ACCOUNT",
               "UNLOCK_LOCAL_ACCOUNT", "LOCK_WORKSTATION", "QUARANTINE_FILE"]
  }

  predicate MayCommand(d: Decision, s: Situation) {
    && d.mode.Enforce? && !PassiveAction(d.action) && !s.reobserved
    && (s.offline ==> s.offlineEnforcement && !DestructiveOffline(d.action))
  }

  function WinnerStatus(d: Decision, s: Situation, buildable: Decision -> bool): Status {
    if MayCommand(d, s) then (if buildable(d) then Queued else Blocked)
    else if d.mode.AlertOnly? then RecommendedOnly
    else if PassiveAction(d.action) || s.reobserved || !d.mode.Enforce? then NotExecuted
    else if !s.offlineEnforcement then HistoricalOnly
    else Blocked
  }

  function Commands(selected: Option<Decision>, s: Situation, buildable: Decision -> bool): seq<Command> {
    match selected
    case None => []
    case Some(d) => if MayCommand(d, s) && buildable(d) then [Command(d.policyId, d.action)] else []
  }

  /** The branches taken for the winner: its status, and whether a command is saved. */
  method RespondToWinner(d: Decision, s: Situation, buildable: Decision -> bool)
    returns (status: Status, queued: bool)
    ensures status == WinnerStatus(d, s, buildable)
    ensures queued <==> MayCommand(d, s) && buildable(d)
    ensures queued <==> status == Queued
    ensures status == RecommendedOnly <==> d.mode == AlertOnly
    ensures status == NotExecuted <==>
              d.mode == UnknownMode
              || (d.mode == Enforce && (s.reobserved || d.action in ["MONITOR", "ALERT", "NOTIFY_SOC"]))
    ensures status in [HistoricalOnly, Blocked, Queued] <==>
              d.mode == Enforce && !s.reobserved && d.action !in ["MONITOR", "ALERT", "NOTIFY_SOC"]
    ensures status == HistoricalOnly <==>
              status in [HistoricalOnly, Blocked, Queued] && s.offline && !s.offlineEnforcement
    ensures status in [Blocked, Queued] ==>
              (status == Queued <==>
                 buildable(d) && !(s.offline && d.action in ["KILL_PROCESS", "LOGOUT_USER", "LOGOFF_USER",
                                                             "LOGOUT_SESSION", "LOCK_LOCAL_ACCOUNT",
                                                             "UNLOCK_LOCAL_ACCOUNT", "LOCK_WORKSTATION",
                                                             "QUARANTINE_FILE"]))
  {
    status, queued := if d.mode.AlertOnly? then RecommendedOnly else NotExecuted, false;
    if d.mode.Enforce? && !PassiveAction(d.action) && !s.reobserved {
      if s.offline && !s.offlineEnforcement {
        status := HistoricalOnly;
      } else if s.offline && DestructiveOffline(d.action) {
        status := Blocked;
      } else if buildable(d) {
        status, queued := Queued, true;
      } else {
        status := Blocked;
      }
    }
  }

  lemma NoCommandYet(s: Situation, buildable: Decision -> bool)
    ensures Commands(None, s, buildable) == []
  {
  }

  /** One turn of the loop below: the first triggered decision wins. */
  method RespondToDecision(d: Decision, selected: Option<Decision>, commands: seq<Command>, s: Situation,
                           buildable: Decision -> bool)
    returns (status: Status, nowSelected: Option<Decision>, nowCommands: seq<Command>)
    requires commands == Commands(selected, s, buildable)
    ensures nowSelected == if selected.None? && d.triggered then Some(d) else selected
    ensures status == if !d.triggered then Evaluated else if selected.Some? then NotSelected
                      else WinnerStatus(d, s, buildable)
    ensures nowCommands == Commands(nowSelected, s, buildable)
  {
    status, nowSelected, nowCommands := Evaluated, selected, commands;
    if d.triggered {
      if selected.Some? {
        status := NotSelected;
      } else {
        nowSelected := Some(d);
        var queued;
        status, queued := RespondToWinner(d, s, buildable);
        if queued {
          nowCommands := commands + [Command(d.policyId, d.action)];
        }
      }
    }
  }

  /** Evaluates every policy in order; one triggered policy wins and may send the only command. */
  method RespondToMatch(policies: seq<Policy>, context: Context, s: Situation, buildable: Decision -> bool,
                        engine: Engine)
    returns (evaluations: seq<PolicyEvaluation>, selected: Option<Decision>, commands: seq<Command>)
    ensures |evaluations| == |policies| == |Sorted(policies)|
    ensures forall i :: 0 <= i < |evaluations| ==>
              evaluations[i].decision == Decide(Sorted(policies)[i], context, engine)
    ensures match Winner(policies, context, engine)
            case None => selected == None
            case Some(w) => selected == Some(Decide(w, context, engine))
    ensures forall i :: 0 <= i < |evaluations| && !evaluations[i].decision.triggered ==>
              evaluations[i].status == Evaluated
    ensures forall i, j :: 0 <= i < j < |evaluations| ==>
              (evaluations[i].decision.triggered && evaluations[j].decision.triggered ==>
               evaluations[j].status == NotSelected)
    ensures selected.Some? ==>
              PolicyEvaluation(selected.value, WinnerStatus(selected.value, s, buildable)) in evaluations
    ensures commands == Commands(selected, s, buildable)
  {
    hide Decide, Sorted, WinnerStatus, Commands;
    var sorted := Sorted(policies);
    SortedIsAnOrderedPermutation(policies);
    NoCommandYet(s, buildable);
    ghost var at := FirstTriggeredAt(sorted, context, engine);
    ghost var ds := seq(|sorted|, i requires 0 <= i < |sorted| => Decide(sorted[i], context, engine));
    assert forall i :: 0 <= i < |sorted| ==> ds[i].triggered == Triggered(sorted[i], context, engine);
    evaluations, selected, commands := [], None, [];
    for k := 0 to |sorted|
      invariant |evaluations| == k
      invariant selected == (if at < k then Some(ds[at]) else None)
      invariant forall i :: 0 <= i < k ==>
                  evaluations[i] == PolicyEvaluation(ds[i],
                    if !ds[i].triggered then Evaluated
                    else if at < i then NotSelected
                    else WinnerStatus(ds[i], s, buildable))
      invariant commands == Commands(selected, s, buildable)
    {
      var decision := Decide(sorted[k], context, engine);
      assert decision == ds[k];
      var status;
      status, selected, commands := RespondToDecision(decision, selected, commands, s, buildable);
      evaluations := evaluations + [PolicyEvaluation(decision, status)];
    }
    assert selected.Some? ==> evaluations[at].decision == selected.value;
  }
}
