/**
Offline evaluation on the agent and its re-check on the manager. The agent evaluates an event with the
signed cached configuration and ships what it found; the manager evaluates the same definitions again
and refuses the whole record at the first disagreement.
*/
module OfflineEvidence {
  import opened Options
  import opened Conditions
  import opened Policies

  datatype Rule = Rule(ruleId: string, code: string, enabled: bool, allowOffline: bool, condition: Option<Condition>)

  /** A configuration whose signature was verified. */
  datatype Cache = Cache(rules: seq<Rule>, policies: seq<Policy>, expiresAt: int)

  /** `context` is what `context(event)` builds: the event's fields, with the agent's reading of them. */
  datatype Event = Event(eventId: string, agentId: string, context: Context)

  datatype Match = Match(ruleId: string, eventId: string, agentId: string, alertId: string)

  datatype EvaluationRow = EvaluationRow(
    policyId: string, ruleId: string, alertId: string, agentId: string, risk: real, trust: real,
    triggered: bool, action: string, mode: Mode, trace: PolicyTrace)

  datatype CommandRow = CommandRow(
    policyId: string, alertId: string, agentId: string, action: string, status: string, verification: string)

  datatype IncidentRow = IncidentRow(alertId: string, agentId: string)

  datatype RuleRow = RuleRow(ruleId: string, eventId: string, agentId: string, matched: bool)

  datatype RiskRow = RiskRow(agentId: string, ruleId: string)

  datatype Evidence = Evidence(
    cache: Cache, evaluatedAt: int, matches: seq<Match>, incidents: seq<IncidentRow>, evaluations: seq<EvaluationRow>,
    commands: seq<CommandRow>, ruleRows: seq<RuleRow>, risks: seq<RiskRow>)

  /** What the agent observes beyond the event: the scores at each match, the alert's name, which
      decisions can be turned into a command, and how each command ends. */
  datatype Surroundings = Surroundings(
    risk: string -> real, trust: string -> real, alertId: (string, string) -> string,
    buildable: Decision -> bool, outcome: (string, string) -> (string, string))

  // ---------------------------------------------------------------- the agent

  predicate Offered(r: Rule) { r.enabled && r.allowOffline }

  predicate Matches(r: Rule, event: Event, engine: Engine) {
    && r.condition.Some?
    && var trace := Explain(r.condition.value, Object(event.context), engine);
       trace.Some? && trace.value.result
  }

  /** The context a policy is evaluated in; only the agent's carries the alert. */
  function PolicyContext(event: Event, ruleId: string, ruleCode: string, risk: real, trust: real,
                         alert: Option<string>): Context
  {
    event.context
      + map["agent_id" := Text(event.agentId), "rule_id" := Text(ruleId), "rule_code" := Text(ruleCode),
            "risk_score" := Number(risk), "trust_score" := Number(trust)]
      + (if alert.Some? then map["alert_id" := Text(alert.value)] else map[])
      + map["execution_source" := OFFLINE]
  }

  function AgentContext(r: Rule, event: Event, around: Surroundings): Context {
    PolicyContext(event, r.ruleId, r.code, around.risk(r.ruleId), around.trust(r.ruleId),
                  Some(around.alertId(event.eventId, r.ruleId)))
  }

  function RowOf(d: Decision, r: Rule, event: Event, around: Surroundings): EvaluationRow {
    EvaluationRow(d.policyId, r.ruleId, around.alertId(event.eventId, r.ruleId), event.agentId,
                  around.risk(r.ruleId), around.trust(r.ruleId), d.triggered, d.action, d.mode, d.trace)
  }

  function MatchedRules(rules: seq<Rule>, event: Event, engine: Engine): seq<Rule> {
    if rules == [] then []
    else (if Offered(rules[0]) && Matches(rules[0], event, engine) then [rules[0]] else [])
         + MatchedRules(rules[1..], event, engine)
  }

  function RowsFor(r: Rule, cache: Cache, event: Event, around: Surroundings, engine: Engine)
    : (rows: seq<EvaluationRow>)
    ensures |rows| == |Sorted(cache.policies)|
    ensures forall i :: 0 <= i < |rows| ==>
              rows[i] == RowOf(Decide(Sorted(cache.policies)[i], AgentContext(r, event, around), engine),
                               r, event, around)
  {
    var sorted := Sorted(cache.policies);
    seq(|sorted|, i requires 0 <= i < |sorted| =>
      RowOf(Decide(sorted[i], AgentContext(r, event, around), engine), r, event, around))
  }

  const OFFLINE_FIRST := Situation(true, true, false)

  /** The command of one match, as it stands once executed. */
  function CommandsFor(r: Rule, cache: Cache, event: Event, around: Surroundings, engine: Engine): seq<CommandRow> {
    match Winner(cache.policies, AgentContext(r, event, around), engine)
    case None => []
    case Some(w) =>
      var d := Decide(w, AgentContext(r, event, around), engine);
      if MayCommand(d, OFFLINE_FIRST) && around.buildable(d) then [CommandOf(d.policyId, d.action, r, event, around)]
      else []
  }

  function CommandOf(policyId: string, action: string, r: Rule, event: Event, around: Surroundings): CommandRow {
    var alert := around.alertId(event.eventId, r.ruleId);
    var ended := around.outcome(alert, policyId);
    CommandRow(policyId, alert, event.agentId, action, ended.0, ended.1)
  }

  function MatchOf(r: Rule, event: Event, around: Surroundings): Match {
    Match(r.ruleId, event.eventId, event.agentId, around.alertId(event.eventId, r.ruleId))
  }

  function IncidentOf(r: Rule, event: Event, around: Surroundings): IncidentRow {
    IncidentRow(around.alertId(event.eventId, r.ruleId), event.agentId)
  }

  /** Every offered rule leaves an evaluation, whether it matches or not. */
  function RuleRowsFor(rules: seq<Rule>, event: Event, engine: Engine): seq<RuleRow> {
    if rules == [] then []
    else (if Offered(rules[0])
          then [RuleRow(rules[0].ruleId, event.eventId, event.agentId, Matches(rules[0], event, engine))] else [])
         + RuleRowsFor(rules[1..], event, engine)
  }

  function Collected(matched: seq<Rule>, cache: Cache, now: int, event: Event, around: Surroundings, engine: Engine)
    : Evidence
  {
    if matched == [] then Evidence(cache, now, [], [], [], [], [], [])
    else
      var rest := Collected(matched[..|matched| - 1], cache, now, event, around, engine);
      var r := matched[|matched| - 1];
      Evidence(cache, now,
               rest.matches + [MatchOf(r, event, around)],
               rest.incidents + [IncidentOf(r, event, around)],
               rest.evaluations + RowsFor(r, cache, event, around, engine),
               rest.commands + CommandsFor(r, cache, event, around, engine),
               [],
               rest.risks + [RiskRow(event.agentId, r.ruleId)])
  }

  function AgentEvidence(event: Event, cache: Cache, now: int, around: Surroundings, engine: Engine): Evidence {
    Collected(MatchedRules(cache.rules, event, engine), cache, now, event, around, engine)
      .(ruleRows := RuleRowsFor(cache.rules, event, engine))
  }

  method EvaluateMatch(r: Rule, event: Event, cache: Cache, around: Surroundings, engine: Engine)
    returns (rows: seq<EvaluationRow>, commands: seq<CommandRow>)
    ensures rows == RowsFor(r, cache, event, around, engine)
    ensures commands == CommandsFor(r, cache, event, around, engine)
  {
    hide Decide, Sorted, Winner, AgentContext;
    var evaluations, selected, ordered :=
      RespondToMatch(cache.policies, AgentContext(r, event, around), OFFLINE_FIRST, around.buildable, engine);
    rows := seq(|evaluations|, i requires 0 <= i < |evaluations| =>
                  RowOf(evaluations[i].decision, r, event, around));
    commands := seq(|ordered|, i requires 0 <= i < |ordered| =>
                      CommandOf(ordered[i].policyId, ordered[i].action, r, event, around));
  }

  /** The pipeline's loop over rules in offline mode, with the policy loop of every match inside it. */
  method EvaluateOffline(event: Event, cache: Cache, now: int, around: Surroundings, engine: Engine)
    returns (evidence: Evidence)
    ensures evidence == AgentEvidence(event, cache, now, around, engine)
  {
    hide RowsFor, CommandsFor, Matches, MatchedRules, Collected, RuleRowsFor;
    evidence := Evidence(cache, now, [], [], [], [], [], []);
    var ruleRows: seq<RuleRow> := [];
    var rest := cache.rules;
    ghost var matched := [];
    NothingMatchedYet(cache.rules, cache, now, event, around, engine);
    while rest != []
      invariant matched + MatchedRules(rest, event, engine) == MatchedRules(cache.rules, event, engine)
      invariant ruleRows + RuleRowsFor(rest, event, engine) == RuleRowsFor(cache.rules, event, engine)
      invariant evidence == Collected(matched, cache, now, event, around, engine)
      decreases |rest|
    {
      var r := rest[0];
      NextRule(rest, matched, event, engine);
      NextRuleRow(rest, ruleRows, event, engine);
      if Offered(r) {
        var matches := Matches(r, event, engine);
        ruleRows := ruleRows + [RuleRow(r.ruleId, event.eventId, event.agentId, matches)];
        if matches {
          var newRows, newCommands := EvaluateMatch(r, event, cache, around, engine);
          OneMoreMatch(matched, r, cache, now, event, around, engine);
          evidence := Evidence(cache, now, evidence.matches + [MatchOf(r, event, around)],
                               evidence.incidents + [IncidentOf(r, event, around)], evidence.evaluations + newRows,
                               evidence.commands + newCommands, [],
                               evidence.risks + [RiskRow(event.agentId, r.ruleId)]);
          matched := matched + [r];
        }
      }
      rest := rest[1..];
    }
    NothingMatchedYet(rest, cache, now, event, around, engine);
    assert matched + [] == matched && ruleRows + [] == ruleRows;
    evidence := evidence.(ruleRows := ruleRows);
  }

  lemma NothingMatchedYet(rules: seq<Rule>, cache: Cache, now: int, event: Event, around: Surroundings, engine: Engine)
    ensures [] + MatchedRules(rules, event, engine) == MatchedRules(rules, event, engine)
    ensures [] + RuleRowsFor(rules, event, engine) == RuleRowsFor(rules, event, engine)
    ensures rules == [] ==> MatchedRules(rules, event, engine) == [] && RuleRowsFor(rules, event, engine) == []
    ensures Collected([], cache, now, event, around, engine) == Evidence(cache, now, [], [], [], [], [], [])
  {
  }

  lemma NextRule(rules: seq<Rule>, matched: seq<Rule>, event: Event, engine: Engine)
    requires rules != []
    ensures matched + MatchedRules(rules, event, engine)
         == (if Offered(rules[0]) && Matches(rules[0], event, engine) then matched + [rules[0]] else matched)
            + MatchedRules(rules[1..], event, engine)
  {
    hide Matches, Offered;
    var rest := MatchedRules(rules[1..], event, engine);
    assert matched + ([rules[0]] + rest) == (matched + [rules[0]]) + rest && [] + rest == rest;
  }

  lemma NextRuleRow(rules: seq<Rule>, rows: seq<RuleRow>, event: Event, engine: Engine)
    requires rules != []
    ensures rows + RuleRowsFor(rules, event, engine)
         == (if Offered(rules[0])
             then rows + [RuleRow(rules[0].ruleId, event.eventId, event.agentId, Matches(rules[0], event, engine))]
             else rows)
            + RuleRowsFor(rules[1..], event, engine)
  {
    hide Matches, Offered;
    var rest := RuleRowsFor(rules[1..], event, engine);
    assert [] + rest == rest;
  }

  lemma OneMoreMatch(matched: seq<Rule>, r: Rule, cache: Cache, now: int, event: Event, around: Surroundings,
                     engine: Engine)
    ensures var e := Collected(matched, cache, now, event, around, engine);
      Collected(matched + [r], cache, now, event, around, engine)
        == Evidence(cache, now, e.matches + [MatchOf(r, event, around)], e.incidents + [IncidentOf(r, event, around)],
                    e.evaluations + RowsFor(r, cache, event, around, engine),
                    e.commands + CommandsFor(r, cache, event, around, engine), [],
                    e.risks + [RiskRow(event.agentId, r.ruleId)])
  {
    hide RowsFor, CommandsFor;
    assert (matched + [r])[..|matched|] == matched;
  }

  // ---------------------------------------------------------------- the manager

  function PolicyById(ps: seq<Policy>, id: string): Option<Policy> {
    if ps == [] then None
    else if ps[|ps| - 1].policyId == id then Some(ps[|ps| - 1])
    else PolicyById(ps[..|ps| - 1], id)
  }

  /** Of the offered rules only; a later definition of the same identifier replaces an earlier one. */
  function RuleById(rules: seq<Rule>, id: string): Option<Rule> {
    if rules == [] then None
    else if rules[|rules| - 1].ruleId == id && Offered(rules[|rules| - 1]) then Some(rules[|rules| - 1])
    else RuleById(rules[..|rules| - 1], id)
  }

  predicate AlertKnown(alertId: string, evidence: Evidence) {
    exists m :: m in evidence.matches && m.alertId == alertId
  }

  predicate MatchPasses(m: Match, event: Event, evidence: Evidence, engine: Engine) {
    var rule := RuleById(evidence.cache.rules, m.ruleId);
    && rule.Some? && m.eventId == event.eventId && m.agentId == event.agentId
    && Matches(rule.value, event, engine)
  }

  predicate RowPasses(row: EvaluationRow, event: Event, evidence: Evidence, engine: Engine) {
    var policy := PolicyById(evidence.cache.policies, row.policyId);
    var rule := RuleById(evidence.cache.rules, row.ruleId);
    && AlertKnown(row.alertId, evidence) && row.agentId == event.agentId && policy.Some?
    && var d := Decide(policy.value,
                       PolicyContext(event, row.ruleId, if rule.Some? then rule.value.code else row.ruleId,
                                     row.risk, row.trust, None), engine);
       d.triggered == row.triggered && d.action == row.action && d.mode == row.mode && d.trace == row.trace
  }

  /** The ends an offline command may have had for its evidence to be taken. */
  predicate Importable(action: string, status: string, verification: string) {
    && status in ["SUCCESS", "FAILED", "INTERRUPTED"]
    && (status == "SUCCESS" && action in ["LOGOUT_USER", "LOGOFF_USER"] ==> verification == "SESSION_NOT_ACTIVE")
    && (status == "SUCCESS" && action in ["ISOLATE_ENDPOINT", "DISABLE_NETWORK"] ==>
          verification == "ISOLATION_VERIFIED")
  }

  predicate TriggeredIn(rows: seq<EvaluationRow>, policyId: string, alertId: string) {
    exists row :: row in rows && row.policyId == policyId && row.alertId == alertId && row.triggered
  }

  predicate CommandPasses(c: CommandRow, event: Event, evidence: Evidence) {
    var policy := PolicyById(evidence.cache.policies, c.policyId);
    && policy.Some? && policy.value.enabled && policy.value.allowOffline && policy.value.mode.Enforce?
    && c.action == policy.value.action && AlertKnown(c.alertId, evidence) && c.agentId == event.agentId
    && Importable(c.action, c.status, c.verification)
    && TriggeredIn(evidence.evaluations, c.policyId, c.alertId)
  }

  predicate IncidentPasses(i: IncidentRow, event: Event, evidence: Evidence) {
    AlertKnown(i.alertId, evidence) && i.agentId == event.agentId
  }

  predicate RuleRowPasses(x: RuleRow, event: Event) { x.eventId == event.eventId && x.agentId == event.agentId }

  predicate RiskPasses(x: RiskRow, event: Event) { x.agentId == event.agentId }

  /** `vets` tells whether a command's parameters survive the dry run of its script or template and, for a
      logout, name the event's own session. */
  predicate ImportAccepts(event: Event, evidence: Evidence, vets: CommandRow -> bool, engine: Engine) {
    && evidence.evaluatedAt <= evidence.cache.expiresAt
    && (forall m :: m in evidence.matches ==> MatchPasses(m, event, evidence, engine))
    && (forall i :: i in evidence.incidents ==> IncidentPasses(i, event, evidence))
    && (forall row :: row in evidence.evaluations ==> RowPasses(row, event, evidence, engine))
    && (forall c :: c in evidence.commands ==> CommandPasses(c, event, evidence) && vets(c))
    && (forall x :: x in evidence.ruleRows ==> RuleRowPasses(x, event))
    && (forall x :: x in evidence.risks ==> RiskPasses(x, event))
  }

  /** `import_offline`: rows are saved as they pass; the first that does not raises. */
  method ImportOffline(event: Event, evidence: Evidence, vets: CommandRow -> bool, engine: Engine)
    returns (accepted: bool, saved: Evidence)
    ensures accepted <==> ImportAccepts(event, evidence, vets, engine)
    ensures accepted ==> saved == evidence
    ensures saved.matches <= evidence.matches && saved.commands <= evidence.commands
  {
    hide Decide, RuleById, PolicyById, Matches, RowPasses, CommandPasses, MatchPasses, IncidentPasses;
    accepted, saved := false, Evidence(evidence.cache, evidence.evaluatedAt, [], [], [], [], [], []);
    if evidence.evaluatedAt > evidence.cache.expiresAt { return; }
    var passed := ImportMatches(event, evidence, engine);
    saved := saved.(matches := evidence.matches[..passed]);
    if passed < |evidence.matches| { return; }
    for i := 0 to |evidence.incidents|
      invariant saved == Evidence(evidence.cache, evidence.evaluatedAt, evidence.matches, evidence.incidents[..i],
                                  [], [], [], [])
      invariant forall x :: x in saved.incidents ==> IncidentPasses(x, event, evidence)
    {
      if !IncidentPasses(evidence.incidents[i], event, evidence) { return; }
      saved := saved.(incidents := saved.incidents + [evidence.incidents[i]]);
    }
    passed := ImportEvaluations(event, evidence, engine);
    saved := saved.(evaluations := evidence.evaluations[..passed]);
    if passed < |evidence.evaluations| { return; }
    passed := ImportCommands(event, evidence, vets);
    saved := saved.(commands := evidence.commands[..passed]);
    if passed < |evidence.commands| { return; }
    var linked := ImportTrail(event, evidence);
    if !linked { return; }
    saved := saved.(ruleRows := evidence.ruleRows, risks := evidence.risks);
    accepted := true;
  }

  /** The matches up to the first that does not pass. */
  method ImportMatches(event: Event, evidence: Evidence, engine: Engine) returns (n: nat)
    ensures n <= |evidence.matches|
    ensures forall m :: m in evidence.matches[..n] ==> MatchPasses(m, event, evidence, engine)
    ensures n == |evidence.matches| <==> forall m :: m in evidence.matches ==> MatchPasses(m, event, evidence, engine)
  {
    hide MatchPasses;
    n := 0;
    while n < |evidence.matches|
      invariant n <= |evidence.matches|
      invariant forall m :: m in evidence.matches[..n] ==> MatchPasses(m, event, evidence, engine)
    {
      if !MatchPasses(evidence.matches[n], event, evidence, engine) { return; }
      n := n + 1;
    }
    assert evidence.matches[..n] == evidence.matches;
  }

  /** The policy evaluations up to the first that does not pass. */
  method ImportEvaluations(event: Event, evidence: Evidence, engine: Engine) returns (n: nat)
    ensures n <= |evidence.evaluations|
    ensures forall row :: row in evidence.evaluations[..n] ==> RowPasses(row, event, evidence, engine)
    ensures n == |evidence.evaluations|
       <==> forall row :: row in evidence.evaluations ==> RowPasses(row, event, evidence, engine)
  {
    hide RowPasses;
    n := 0;
    while n < |evidence.evaluations|
      invariant n <= |evidence.evaluations|
      invariant forall row :: row in evidence.evaluations[..n] ==> RowPasses(row, event, evidence, engine)
    {
      if !RowPasses(evidence.evaluations[n], event, evidence, engine) { return; }
      n := n + 1;
    }
    assert evidence.evaluations[..n] == evidence.evaluations;
  }

  /** The commands up to the first that does not pass. */
  method ImportCommands(event: Event, evidence: Evidence, vets: CommandRow -> bool) returns (n: nat)
    ensures n <= |evidence.commands|
    ensures forall c :: c in evidence.commands[..n] ==> CommandPasses(c, event, evidence) && vets(c)
    ensures n == |evidence.commands|
       <==> forall c :: c in evidence.commands ==> CommandPasses(c, event, evidence) && vets(c)
  {
    hide CommandPasses;
    n := 0;
    while n < |evidence.commands|
      invariant n <= |evidence.commands|
      invariant forall c :: c in evidence.commands[..n] ==> CommandPasses(c, event, evidence) && vets(c)
    {
      if !CommandPasses(evidence.commands[n], event, evidence) || !vets(evidence.commands[n]) { return; }
      n := n + 1;
    }
    assert evidence.commands[..n] == evidence.commands;
  }

  /** The rule evaluations and risk rows, all of which must belong to the event. */
  method ImportTrail(event: Event, evidence: Evidence) returns (linked: bool)
    ensures linked <==> (forall x :: x in evidence.ruleRows ==> RuleRowPasses(x, event))
                        && (forall x :: x in evidence.risks ==> RiskPasses(x, event))
  {
    linked := false;
    for i := 0 to |evidence.ruleRows|
      invariant forall k :: 0 <= k < i ==> RuleRowPasses(evidence.ruleRows[k], event)
    {
      if !RuleRowPasses(evidence.ruleRows[i], event) { return; }
    }
    for i := 0 to |evidence.risks|
      invariant forall k :: 0 <= k < i ==> RiskPasses(evidence.risks[k], event)
    {
      if !RiskPasses(evidence.risks[i], event) { return; }
    }
    linked := true;
  }

  // ---------------------------------------------------------------- what the two sides can disagree about

  /** Some leaf reads exactly the field `alert_id`. */
  predicate ReadsAlert(c: Condition) {
    match c
    case Malformed => false
    case Leaf(path, _, _) => path == ["alert_id"]
    case Not(child) => ReadsAlert(child)
    case All(children) => exists i :: 0 <= i < |children| && ReadsAlert(children[i])
    case Any(children) => exists i :: 0 <= i < |children| && ReadsAlert(children[i])
  }

  lemma LookupDiffersOnlyAtAlert(path: seq<string>, context: Context, alert: string)
    requires "alert_id" !in context && path != []
    ensures path != ["alert_id"] ==>
              Lookup(path, Object(context["alert_id" := Text(alert)])) == Lookup(path, Object(context))
    ensures path == ["alert_id"] ==>
              Lookup(path, Object(context["alert_id" := Text(alert)])) == Some(Text(alert))
              && Lookup(path, Object(context)) == None
  {
    var other := context["alert_id" := Text(alert)];
    assert Lookup(path, Object(other)) ==
      (if path[0] in other then Lookup(path[1..], other[path[0]]) else None);
    if path[0] == "alert_id" {
      assert path == ["alert_id"] + path[1..];
      if path[1..] != [] {
        assert Lookup(path[1..], Text(alert)) == None;
      }
    }
  }

  lemma {:induction false} TraceTellsWhetherAlertWasRead(c: Condition, context: Context, alert: string, engine: Engine)
    requires WellShaped(c, engine) && "alert_id" !in context
    ensures Evaluate(c, Object(context["alert_id" := Text(alert)]), engine) == Evaluate(c, Object(context), engine)
       <==> !ReadsAlert(c)
    decreases c
  {
    var with, without := Object(context["alert_id" := Text(alert)]), Object(context);
    match c
    case Leaf(path, _, _) =>
      LookupDiffersOnlyAtAlert(path, context, alert);
    case Not(child) =>
      TraceTellsWhetherAlertWasRead(child, context, alert, engine);
      assert Evaluate(c, with, engine).children[0] == Evaluate(child, with, engine);
      assert Evaluate(c, without, engine).children[0] == Evaluate(child, without, engine);
    case All(children) =>
      GroupTellsWhetherAlertWasRead(children, context, alert, engine);
    case Any(children) =>
      GroupTellsWhetherAlertWasRead(children, context, alert, engine);
  }

  lemma {:induction false} GroupTellsWhetherAlertWasRead(
      cs: seq<Condition>, context: Context, alert: string, engine: Engine)
    requires "alert_id" !in context
    requires forall x :: x in cs ==> WellShaped(x, engine)
    ensures EvaluateEach(cs, Object(context["alert_id" := Text(alert)]), engine)
         == EvaluateEach(cs, Object(context), engine)
       <==> forall i :: 0 <= i < |cs| ==> !ReadsAlert(cs[i])
    decreases cs
  {
    var a := EvaluateEach(cs, Object(context["alert_id" := Text(alert)]), engine);
    var b := EvaluateEach(cs, Object(context), engine);
    forall i | 0 <= i < |cs| ensures a[i] == b[i] <==> !ReadsAlert(cs[i]) {
      TraceTellsWhetherAlertWasRead(cs[i], context, alert, engine);
    }
    if forall i :: 0 <= i < |cs| ==> !ReadsAlert(cs[i]) {
      assert a == b;
    }
  }

  /** The policy's condition is refused by the validator, or does not look at the alert. */
  predicate AlertBlind(p: Policy, engine: Engine) {
    Valid(EffectiveCondition(p), engine) ==> !ReadsAlert(EffectiveCondition(p))
  }

  lemma DecisionsAgree(p: Policy, context: Context, alert: string, engine: Engine)
    requires "alert_id" !in context
    ensures Decide(p, context["alert_id" := Text(alert)], engine).trace == Decide(p, context, engine).trace
       <==> AlertBlind(p, engine)
    ensures Decide(p, context["alert_id" := Text(alert)], engine) == Decide(p, context, engine)
       <==> AlertBlind(p, engine)
  {
    var c := EffectiveCondition(p);
    ThreadedCheckIsGlobalBound(c, 1, 0, engine);
    if Valid(c, engine) {
      TraceTellsWhetherAlertWasRead(c, context, alert, engine);
    }
  }

  // ---------------------------------------------------------------- the two sides together

  ghost predicate DistinctIds(cache: Cache) {
    && (forall i, j :: 0 <= i < j < |cache.rules| ==> cache.rules[i].ruleId != cache.rules[j].ruleId)
    && (forall i, j :: 0 <= i < j < |cache.policies| ==> cache.policies[i].policyId != cache.policies[j].policyId)
  }

  lemma {:induction false} RuleIsFound(rules: seq<Rule>, r: Rule)
    requires forall i, j :: 0 <= i < j < |rules| ==> rules[i].ruleId != rules[j].ruleId
    requires r in rules && Offered(r)
    ensures RuleById(rules, r.ruleId) == Some(r)
  {
    if rules[|rules| - 1] != r {
      RuleIsFound(rules[..|rules| - 1], r);
    }
  }

  lemma {:induction false} PolicyIsFound(ps: seq<Policy>, p: Policy)
    requires forall i, j :: 0 <= i < j < |ps| ==> ps[i].policyId != ps[j].policyId
    requires p in ps
    ensures PolicyById(ps, p.policyId) == Some(p)
  {
    if ps[|ps| - 1] != p {
      PolicyIsFound(ps[..|ps| - 1], p);
    }
  }

  lemma {:induction false} MatchedRulesAre(rules: seq<Rule>, event: Event, engine: Engine)
    ensures forall r :: r in MatchedRules(rules, event, engine)
                   <==> r in rules && Offered(r) && Matches(r, event, engine)
  {
    if rules == [] {
    } else {
      MatchedRulesAre(rules[1..], event, engine);
      assert forall r :: r in rules <==> r == rules[0] || r in rules[1..];
    }
  }

  /** What the agent's loops leave in the evidence, by membership. */
  lemma {:induction false} CollectedAre(
      matched: seq<Rule>, cache: Cache, now: int, event: Event, around: Surroundings, engine: Engine)
    ensures var e := Collected(matched, cache, now, event, around, engine);
      && e.cache == cache && e.evaluatedAt == now
      && (forall m :: m in e.matches <==> exists r :: r in matched && m == MatchOf(r, event, around))
      && (forall i :: i in e.incidents <==> exists r :: r in matched && i == IncidentOf(r, event, around))
      && (forall x :: x in e.risks <==> exists r :: r in matched && x == RiskRow(event.agentId, r.ruleId))
      && (forall row :: row in e.evaluations <==>
            exists r :: r in matched && row in RowsFor(r, cache, event, around, engine))
      && (forall c :: c in e.commands <==>
            exists r :: r in matched && c in CommandsFor(r, cache, event, around, engine))
  {
    hide RowsFor, CommandsFor;
    if matched == [] {
    } else {
      CollectedAre(matched[..|matched| - 1], cache, now, event, around, engine);
    }
  }

  ghost predicate RowsPass(r: Rule, event: Event, evidence: Evidence, around: Surroundings, engine: Engine) {
    forall row :: row in RowsFor(r, evidence.cache, event, around, engine) ==> RowPasses(row, event, evidence, engine)
  }

  lemma RowsOfOneMatch(r: Rule, event: Event, evidence: Evidence, around: Surroundings, engine: Engine)
    requires DistinctIds(evidence.cache) && "alert_id" !in event.context
    requires r in evidence.cache.rules && Offered(r)
    requires AlertKnown(around.alertId(event.eventId, r.ruleId), evidence)
    ensures RowsPass(r, event, evidence, around, engine)
       <==> forall p :: p in evidence.cache.policies ==> AlertBlind(p, engine)
  {
    hide Decide, AlertBlind, Sorted, RuleById, PolicyById;
    var cache := evidence.cache;
    var sorted := Sorted(cache.policies);
    var rows := RowsFor(r, cache, event, around, engine);
    SortedIsAnOrderedPermutation(cache.policies);
    assert forall p :: p in sorted <==> p in multiset(sorted);
    assert forall p :: p in cache.policies <==> p in multiset(cache.policies);
    RuleIsFound(cache.rules, r);
    forall i | 0 <= i < |rows|
      ensures RowPasses(rows[i], event, evidence, engine) <==> AlertBlind(sorted[i], engine)
    {
      RowOfOnePolicy(r, sorted[i], event, evidence, around, engine);
    }
    assert forall row :: row in rows <==> exists i :: 0 <= i < |rows| && rows[i] == row;
  }

  lemma RowOfOnePolicy(r: Rule, p: Policy, event: Event, evidence: Evidence, around: Surroundings, engine: Engine)
    requires DistinctIds(evidence.cache) && "alert_id" !in event.context
    requires RuleById(evidence.cache.rules, r.ruleId) == Some(r) && p in evidence.cache.policies
    requires AlertKnown(around.alertId(event.eventId, r.ruleId), evidence)
    ensures var d := Decide(p, AgentContext(r, event, around), engine);
      RowPasses(RowOf(d, r, event, around), event, evidence, engine) <==> AlertBlind(p, engine)
  {
    hide AlertBlind, RuleById, PolicyById;
    var risk, trust := around.risk(r.ruleId), around.trust(r.ruleId);
    var alert := around.alertId(event.eventId, r.ruleId);
    var theirs := PolicyContext(event, r.ruleId, r.code, risk, trust, None);
    PolicyIsFound(evidence.cache.policies, p);
    assert AgentContext(r, event, around) == theirs["alert_id" := Text(alert)];
    DecisionsAgree(p, theirs, alert, engine);
  }

  lemma CommandOfOneMatch(r: Rule, event: Event, evidence: Evidence, around: Surroundings, engine: Engine)
    requires DistinctIds(evidence.cache)
    requires AlertKnown(around.alertId(event.eventId, r.ruleId), evidence)
    requires forall row :: row in RowsFor(r, evidence.cache, event, around, engine) ==> row in evidence.evaluations
    ensures forall c :: c in CommandsFor(r, evidence.cache, event, around, engine) ==>
              (CommandPasses(c, event, evidence) <==> Importable(c.action, c.status, c.verification))
  {
    hide Explain, Sorted, PolicyById, Importable, AlertKnown, Triggered, LeastTriggered;
    var cache := evidence.cache;
    var context := AgentContext(r, event, around);
    WinnerIsLeastTriggered(cache.policies, context, engine);
    if Winner(cache.policies, context, engine).Some? {
      var w := Winner(cache.policies, context, engine).value;
      WinnerHasATriggeredRow(r, w, event, evidence, around, engine);
      PolicyIsFound(cache.policies, w);
    }
  }

  /** The winner is eligible offline, and its evaluation says so. */
  lemma WinnerHasATriggeredRow(r: Rule, w: Policy, event: Event, evidence: Evidence, around: Surroundings,
                               engine: Engine)
    requires Winner(evidence.cache.policies, AgentContext(r, event, around), engine) == Some(w)
    requires forall row :: row in RowsFor(r, evidence.cache, event, around, engine) ==> row in evidence.evaluations
    ensures w in evidence.cache.policies && w.enabled && w.allowOffline
    ensures TriggeredIn(evidence.evaluations, w.policyId, around.alertId(event.eventId, r.ruleId))
  {
    hide Explain, Sorted;
    var context := AgentContext(r, event, around);
    var policies := evidence.cache.policies;
    WinnerIsLeastTriggered(policies, context, engine);
    var rows := RowsFor(r, evidence.cache, event, around, engine);
    SortedIsAnOrderedPermutation(policies);
    assert w in multiset(policies);
    assert w in Sorted(policies);
    var i :| 0 <= i < |rows| && Sorted(policies)[i] == w;
    assert rows[i] in rows && rows[i].triggered;
    assert Eligible(w, context) && Reads(context, "execution_source", OFFLINE);
  }

  lemma {:induction false} RuleRowsAreLinked(rules: seq<Rule>, event: Event, engine: Engine)
    ensures forall x :: x in RuleRowsFor(rules, event, engine) ==> RuleRowPasses(x, event)
  {
    hide Matches, Offered;
    if rules != [] {
      RuleRowsAreLinked(rules[1..], event, engine);
    }
  }

  /** Matches, incidents, rule evaluations and risk rows of the agent's evidence always pass. */
  lemma LinkageHolds(event: Event, cache: Cache, now: int, around: Surroundings, engine: Engine)
    requires DistinctIds(cache)
    ensures var e := AgentEvidence(event, cache, now, around, engine);
      && e.cache == cache && e.evaluatedAt == now
      && (forall m :: m in e.matches ==> MatchPasses(m, event, e, engine))
      && (forall i :: i in e.incidents ==> IncidentPasses(i, event, e))
      && (forall x :: x in e.ruleRows ==> RuleRowPasses(x, event))
      && (forall x :: x in e.risks ==> RiskPasses(x, event))
  {
    hide Matches, RowsFor, CommandsFor, RuleById;
    var matched := MatchedRules(cache.rules, event, engine);
    var e := AgentEvidence(event, cache, now, around, engine);
    CollectedAre(matched, cache, now, event, around, engine);
    MatchedRulesAre(cache.rules, event, engine);
    RuleRowsAreLinked(cache.rules, event, engine);
    forall m | m in e.matches ensures MatchPasses(m, event, e, engine) {
      var r :| r in matched && m == MatchOf(r, event, around);
      RuleIsFound(cache.rules, r);
    }
    forall i | i in e.incidents ensures IncidentPasses(i, event, e) {
      var r :| r in matched && i == IncidentOf(r, event, around);
      assert MatchOf(r, event, around) in e.matches;
    }
  }

  /** Offline evidence passes the manager's re-check exactly when it was evaluated before expiry, no
      policy that is evaluated looks at the alert, and every command ended in an importable way with
      parameters that survive the dry run. */
  lemma RecheckAcceptsExactly(event: Event, cache: Cache, now: int, around: Surroundings, vets: CommandRow -> bool,
                              engine: Engine)
    requires DistinctIds(cache) && "alert_id" !in event.context
    ensures var e := AgentEvidence(event, cache, now, around, engine);
      ImportAccepts(event, e, vets, engine) <==>
        && now <= cache.expiresAt
        && (MatchedRules(cache.rules, event, engine) != [] ==>
              forall p :: p in cache.policies ==> AlertBlind(p, engine))
        && (forall c :: c in e.commands ==> Importable(c.action, c.status, c.verification) && vets(c))
  {
    hide Matches, RowsFor, CommandsFor, AlertBlind, Importable, RuleById;
    hide RowPasses, CommandPasses, MatchPasses, IncidentPasses, RuleRowPasses, RiskPasses;
    var matched := MatchedRules(cache.rules, event, engine);
    var e := AgentEvidence(event, cache, now, around, engine);
    LinkageHolds(event, cache, now, around, engine);
    EvaluationsPassIff(event, cache, now, around, engine);
    CommandsPassIff(event, cache, now, around, engine);
  }

  lemma EvaluationsPassIff(event: Event, cache: Cache, now: int, around: Surroundings, engine: Engine)
    requires DistinctIds(cache) && "alert_id" !in event.context
    ensures var e := AgentEvidence(event, cache, now, around, engine);
      (forall row :: row in e.evaluations ==> RowPasses(row, event, e, engine)) <==>
        (MatchedRules(cache.rules, event, engine) != [] ==> forall p :: p in cache.policies ==> AlertBlind(p, engine))
  {
    hide Matches, RowsFor, CommandsFor, AlertBlind, RowPasses, RuleById;
    var matched := MatchedRules(cache.rules, event, engine);
    var e := AgentEvidence(event, cache, now, around, engine);
    CollectedAre(matched, cache, now, event, around, engine);
    MatchedRulesAre(cache.rules, event, engine);
    forall r | r in matched
      ensures RowsPass(r, event, e, around, engine) <==> forall p :: p in cache.policies ==> AlertBlind(p, engine)
    {
      assert MatchOf(r, event, around) in e.matches;
      RowsOfOneMatch(r, event, e, around, engine);
    }
    assert (forall row :: row in e.evaluations ==> RowPasses(row, event, e, engine))
      <==> (forall r :: r in matched ==> RowsPass(r, event, e, around, engine));
    if matched != [] {
      assert matched[0] in matched;
    }
  }

  lemma CommandsPassIff(event: Event, cache: Cache, now: int, around: Surroundings, engine: Engine)
    requires DistinctIds(cache)
    ensures var e := AgentEvidence(event, cache, now, around, engine);
      forall c :: c in e.commands ==> (CommandPasses(c, event, e) <==> Importable(c.action, c.status, c.verification))
  {
    hide Matches, RowsFor, CommandsFor, CommandPasses, Importable, RuleById;
    var matched := MatchedRules(cache.rules, event, engine);
    var e := AgentEvidence(event, cache, now, around, engine);
    CollectedAre(matched, cache, now, event, around, engine);
    forall c | c in e.commands ensures CommandPasses(c, event, e) <==> Importable(c.action, c.status, c.verification) {
      var r :| r in matched && c in CommandsFor(r, cache, event, around, engine);
      assert MatchOf(r, event, around) in e.matches;
      CommandOfOneMatch(r, event, e, around, engine);
    }
  }

  /** A rule that matches, beside a policy that asks whether an alert exists: the agent's own evidence is refused. */
  lemma RefusedEvidence(r: Rule, p: Policy, event: Event, now: int, expiresAt: int, around: Surroundings,
                        vets: CommandRow -> bool, engine: Engine)
    requires r.enabled && r.allowOffline && r.condition == Some(Leaf(["alert_id"], NotExists, None))
    requires p.condition == Some(Leaf(["alert_id"], Exists, None)) && "alert_id" !in event.context
    ensures var cache := Cache([r], [p], expiresAt);
            var e := AgentEvidence(event, cache, now, around, engine);
      |e.matches| == 1 && !ImportAccepts(event, e, vets, engine)
  {
    var cache := Cache([r], [p], expiresAt);
    LooksAtTheAlert(p, engine);
    MatchesWithoutAlert(r, event, engine);
    hide Matches, AlertBlind, ImportAccepts, RowsFor, CommandsFor;
    assert [r][1..] == [] && [] + [r] == [r];
    assert MatchedRules([r], event, engine) == [r];
    OneMoreMatch([], r, cache, now, event, around, engine);
    RecheckAcceptsExactly(event, cache, now, around, vets, engine);
    assert p in cache.policies;
  }

  lemma LooksAtTheAlert(p: Policy, engine: Engine)
    requires p.condition == Some(Leaf(["alert_id"], Exists, None))
    ensures !AlertBlind(p, engine)
  {
    var c := EffectiveCondition(p);
    assert FieldLength(["alert_id"]) == 8;
    assert LeafOk(c, engine);
  }

  lemma MatchesWithoutAlert(r: Rule, event: Event, engine: Engine)
    requires r.condition == Some(Leaf(["alert_id"], NotExists, None)) && "alert_id" !in event.context
    ensures Matches(r, event, engine)
  {
    assert FieldLength(["alert_id"]) == 8;
    assert LeafOk(r.condition.value, engine);
  }

  // ---------------------------------------------------------------- what evidence that is taken guarantees

  lemma {:induction false} FoundRuleIsOffered(rules: seq<Rule>, id: string)
    ensures RuleById(rules, id).Some? ==>
              var r := RuleById(rules, id).value; r in rules && r.ruleId == id && r.enabled && r.allowOffline
    ensures RuleById(rules, id).None? ==> forall r :: r in rules && r.enabled && r.allowOffline ==> r.ruleId != id
  {
    if rules != [] {
      FoundRuleIsOffered(rules[..|rules| - 1], id);
      assert rules == rules[..|rules| - 1] + [rules[|rules| - 1]];
    }
  }

  lemma {:induction false} FoundPolicyIsThere(ps: seq<Policy>, id: string)
    ensures PolicyById(ps, id).Some? ==> PolicyById(ps, id).value in ps && PolicyById(ps, id).value.policyId == id
    ensures PolicyById(ps, id).None? ==> forall p :: p in ps ==> p.policyId != id
  {
    if ps != [] {
      FoundPolicyIsThere(ps[..|ps| - 1], id);
      assert ps == ps[..|ps| - 1] + [ps[|ps| - 1]];
    }
  }

  /** The rule was offered for offline use, and its condition is valid and matches the event. */
  ghost predicate TrulyMatches(r: Rule, event: Event, engine: Engine) {
    && r.enabled && r.allowOffline && r.condition.Some? && Valid(r.condition.value, engine)
    && (WellShaped(r.condition.value, engine) ==> Evaluate(r.condition.value, Object(event.context), engine).result)
  }

  /** Whoever made the evidence: what is taken was evaluated in time and is about the event's own agent; every match
      is of an offered rule that does match the event; every policy that counts as triggered is enabled, allowed
      offline, and linked to no rule but the one of the row; every command carries out such a policy. */
  lemma TakenEvidenceIsTrue(event: Event, evidence: Evidence, vets: CommandRow -> bool, engine: Engine)
    requires ImportAccepts(event, evidence, vets, engine)
    ensures evidence.evaluatedAt <= evidence.cache.expiresAt
    ensures forall m :: m in evidence.matches ==>
              && m.eventId == event.eventId && m.agentId == event.agentId
              && exists r :: r in evidence.cache.rules && r.ruleId == m.ruleId && TrulyMatches(r, event, engine)
    ensures forall i :: i in evidence.incidents ==>
              i.agentId == event.agentId && exists m :: m in evidence.matches && m.alertId == i.alertId
    ensures forall row :: row in evidence.evaluations ==>
              && row.agentId == event.agentId && (exists m :: m in evidence.matches && m.alertId == row.alertId)
              && exists p :: p in evidence.cache.policies && p.policyId == row.policyId && SaysTheRow(p, row, evidence)
    ensures forall c :: c in evidence.commands ==>
              && c.agentId == event.agentId && vets(c) && (exists m :: m in evidence.matches && m.alertId == c.alertId)
              && c.status in ["SUCCESS", "FAILED", "INTERRUPTED"]
              && (c.status == "SUCCESS" && c.action in ["LOGOUT_USER", "LOGOFF_USER"] ==>
                    c.verification == "SESSION_NOT_ACTIVE")
              && (c.status == "SUCCESS" && c.action in ["ISOLATE_ENDPOINT", "DISABLE_NETWORK"] ==>
                    c.verification == "ISOLATION_VERIFIED")
              && (exists p :: p in evidence.cache.policies && p.policyId == c.policyId && CarriedOut(p, c))
              && exists row :: row in evidence.evaluations && row.policyId == c.policyId && row.alertId == c.alertId
                               && row.triggered
    ensures forall x :: x in evidence.ruleRows ==> x.eventId == event.eventId && x.agentId == event.agentId
    ensures forall x :: x in evidence.risks ==> x.agentId == event.agentId
  {
    hide Matches, RuleById, PolicyById, Decide, TrulyMatches, SaysTheRow, CarriedOut;
    forall m | m in evidence.matches
      ensures exists r :: r in evidence.cache.rules && r.ruleId == m.ruleId && TrulyMatches(r, event, engine)
    {
      assert MatchPasses(m, event, evidence, engine);
      FoundRuleIsOffered(evidence.cache.rules, m.ruleId);
      MatchesTruly(RuleById(evidence.cache.rules, m.ruleId).value, event, engine);
    }
    forall row | row in evidence.evaluations
      ensures exists p :: p in evidence.cache.policies && p.policyId == row.policyId && SaysTheRow(p, row, evidence)
    {
      assert RowPasses(row, event, evidence, engine);
      FoundPolicyIsThere(evidence.cache.policies, row.policyId);
      RowIsSaid(row, event, evidence, engine);
    }
    forall c | c in evidence.commands
      ensures exists p :: p in evidence.cache.policies && p.policyId == c.policyId && CarriedOut(p, c)
    {
      assert CommandPasses(c, event, evidence);
      FoundPolicyIsThere(evidence.cache.policies, c.policyId);
      CommandIsCarriedOut(c, event, evidence);
    }
  }

  lemma MatchesTruly(r: Rule, event: Event, engine: Engine)
    ensures Offered(r) && Matches(r, event, engine) <==> TrulyMatches(r, event, engine)
  {
    if r.condition.Some? { ThreadedCheckIsGlobalBound(r.condition.value, 1, 0, engine); }
  }

  /** The row gives the policy's action and mode, and says triggered only of a policy that may be. */
  ghost predicate SaysTheRow(p: Policy, row: EvaluationRow, evidence: Evidence) {
    && row.action == p.action && row.mode == p.mode
    && (row.triggered ==>
          && p.enabled && p.allowOffline && p.mode in [AlertOnly, Enforce]
          && (p.linkedRule.Some? && p.linkedRule.value !in ["", row.ruleId] ==>
                exists r :: r in evidence.cache.rules && r.ruleId == row.ruleId && r.code == p.linkedRule.value))
  }

  lemma RowIsSaid(row: EvaluationRow, event: Event, evidence: Evidence, engine: Engine)
    requires RowPasses(row, event, evidence, engine)
    ensures PolicyById(evidence.cache.policies, row.policyId).Some?
    ensures SaysTheRow(PolicyById(evidence.cache.policies, row.policyId).value, row, evidence)
  {
    hide Explain, RuleById, PolicyById, AlertKnown;
    FoundRuleIsOffered(evidence.cache.rules, row.ruleId);
    var p, rule := PolicyById(evidence.cache.policies, row.policyId).value, RuleById(evidence.cache.rules, row.ruleId);
    var code := if rule.Some? then rule.value.code else row.ruleId;
    ContextSays(event, row.ruleId, code, row.risk, row.trust, None);
    TriggersExactly(p, PolicyContext(event, row.ruleId, code, row.risk, row.trust, None), engine);
  }

  /** The command is what an enforcing policy asks for. */
  ghost predicate CarriedOut(p: Policy, c: CommandRow) {
    p.enabled && p.allowOffline && p.mode == Enforce && c.action == p.action
  }

  lemma CommandIsCarriedOut(c: CommandRow, event: Event, evidence: Evidence)
    requires CommandPasses(c, event, evidence)
    ensures PolicyById(evidence.cache.policies, c.policyId).Some?
    ensures CarriedOut(PolicyById(evidence.cache.policies, c.policyId).value, c)
  {
  }

  /** What a policy's condition can read of a match besides the event. */
  lemma ContextSays(event: Event, ruleId: string, code: string, risk: real, trust: real, alert: Option<string>)
    ensures var c := PolicyContext(event, ruleId, code, risk, trust, alert);
      && {"agent_id", "rule_id", "rule_code", "risk_score", "trust_score", "execution_source"} <= c.Keys
      && (alert.Some? ==> "alert_id" in c)
      && c["agent_id"] == Text(event.agentId) && c["rule_id"] == Text(ruleId) && c["rule_code"] == Text(code)
      && c["risk_score"] == Number(risk) && c["trust_score"] == Number(trust)
      && c["execution_source"] == Text("AGENT_OFFLINE") && (alert.Some? ==> c["alert_id"] == Text(alert.value))
  {
  }

  /** And the event's own fields are there as they were. */
  lemma ContextKeepsTheEvent(event: Event, ruleId: string, code: string, risk: real, trust: real,
                             alert: Option<string>, name: string)
    requires name !in ["agent_id", "rule_id", "rule_code", "risk_score", "trust_score", "execution_source"]
    requires name == "alert_id" ==> alert.None?
    ensures var c := PolicyContext(event, ruleId, code, risk, trust, alert);
      (name in c <==> name in event.context) && (name in c ==> c[name] == event.context[name])
  {
  }

  /** What the agent's evidence holds: a match, an incident and a risk row for every offered rule that matches, a rule
      evaluation for every offered one, and commands only of enforcing policies with actions that may be carried out
      offline, as they ended. */
  lemma AgentEvidenceHolds(event: Event, cache: Cache, now: int, around: Surroundings, engine: Engine)
    ensures var e := AgentEvidence(event, cache, now, around, engine);
      && (forall m :: m in e.matches <==>
            exists r :: r in cache.rules && TrulyMatches(r, event, engine)
                        && m == Match(r.ruleId, event.eventId, event.agentId, around.alertId(event.eventId, r.ruleId)))
      && (forall i :: i in e.incidents <==>
            exists r :: r in cache.rules && TrulyMatches(r, event, engine)
                        && i == IncidentRow(around.alertId(event.eventId, r.ruleId), event.agentId))
      && (forall x :: x in e.risks <==>
            exists r :: r in cache.rules && TrulyMatches(r, event, engine) && x == RiskRow(event.agentId, r.ruleId))
    ensures forall x :: x in AgentEvidence(event, cache, now, around, engine).ruleRows <==>
              exists r :: r in cache.rules && r.enabled && r.allowOffline
                          && x == RuleRow(r.ruleId, event.eventId, event.agentId, TrulyMatches(r, event, engine))
    ensures forall c :: c in AgentEvidence(event, cache, now, around, engine).commands ==>
              exists r :: r in cache.rules && TrulyMatches(r, event, engine)
                          && CommandOfMatch(c, r, event, cache, around)
  {
    hide Matches, RowsFor, CommandsFor, Offered, TrulyMatches, CommandOfMatch;
    var matched := MatchedRules(cache.rules, event, engine);
    CollectedAre(matched, cache, now, event, around, engine);
    MatchedRulesAre(cache.rules, event, engine);
    RuleRowsAre(cache.rules, event, engine);
    forall r: Rule ensures Offered(r) && Matches(r, event, engine) <==> TrulyMatches(r, event, engine) {
      MatchesTruly(r, event, engine);
    }
    forall c | c in AgentEvidence(event, cache, now, around, engine).commands
      ensures exists r :: r in cache.rules && TrulyMatches(r, event, engine)
                          && CommandOfMatch(c, r, event, cache, around)
    {
      var r :| r in matched && c in CommandsFor(r, cache, event, around, engine);
      CommandIsOfMatch(r, c, event, cache, around, engine);
    }
  }

  /** And an offered rule that matches has its command executed when the policy that wins for it enforces an action
      that may be carried out offline and can be built. */
  lemma EnforcedMatchHasItsCommand(r: Rule, p: Policy, event: Event, cache: Cache, now: int, around: Surroundings,
                                   engine: Engine)
    requires r in cache.rules && TrulyMatches(r, event, engine)
    requires Winner(cache.policies, AgentContext(r, event, around), engine) == Some(p) && p.mode == Enforce
    requires p.action !in ["MONITOR", "ALERT", "NOTIFY_SOC", "KILL_PROCESS", "LOGOUT_USER", "LOGOFF_USER",
                           "LOGOUT_SESSION", "LOCK_LOCAL_ACCOUNT", "UNLOCK_LOCAL_ACCOUNT", "LOCK_WORKSTATION",
                           "QUARANTINE_FILE"]
    requires around.buildable(Decide(p, AgentContext(r, event, around), engine))
    ensures var alert := around.alertId(event.eventId, r.ruleId);
            var ended := around.outcome(alert, p.policyId);
      CommandRow(p.policyId, alert, event.agentId, p.action, ended.0, ended.1)
        in AgentEvidence(event, cache, now, around, engine).commands
  {
    MatchesTruly(r, event, engine);
    TriggersExactly(p, AgentContext(r, event, around), engine);
    hide Matches, RowsFor, TrulyMatches, Decide, Winner, AgentContext;
    var matched := MatchedRules(cache.rules, event, engine);
    CollectedAre(matched, cache, now, event, around, engine);
    MatchedRulesAre(cache.rules, event, engine);
    var alert := around.alertId(event.eventId, r.ruleId);
    var ended := around.outcome(alert, p.policyId);
    assert CommandRow(p.policyId, alert, event.agentId, p.action, ended.0, ended.1)
           in CommandsFor(r, cache, event, around, engine);
  }

  ghost predicate CommandOfMatch(c: CommandRow, r: Rule, event: Event, cache: Cache, around: Surroundings) {
    && c.agentId == event.agentId && c.alertId == around.alertId(event.eventId, r.ruleId)
    && (c.status, c.verification) == around.outcome(c.alertId, c.policyId)
    && c.action !in ["MONITOR", "ALERT", "NOTIFY_SOC", "KILL_PROCESS", "LOGOUT_USER", "LOGOFF_USER", "LOGOUT_SESSION",
                     "LOCK_LOCAL_ACCOUNT", "UNLOCK_LOCAL_ACCOUNT", "LOCK_WORKSTATION", "QUARANTINE_FILE"]
    && exists p :: p in cache.policies && p.policyId == c.policyId && CarriedOut(p, c)
  }

  lemma CommandIsOfMatch(r: Rule, c: CommandRow, event: Event, cache: Cache, around: Surroundings, engine: Engine)
    requires c in CommandsFor(r, cache, event, around, engine)
    ensures CommandOfMatch(c, r, event, cache, around)
  {
    hide Explain, Sorted, LeastTriggered, Triggered;
    var context := AgentContext(r, event, around);
    WinnerIsLeastTriggered(cache.policies, context, engine);
    var w := Winner(cache.policies, context, engine).value;
    WinnerIsThere(w, cache.policies, context, engine);
    ContextSays(event, r.ruleId, r.code, around.risk(r.ruleId), around.trust(r.ruleId),
                Some(around.alertId(event.eventId, r.ruleId)));
    TriggersExactly(w, context, engine);
    assert CarriedOut(w, c);
  }

  lemma WinnerIsThere(w: Policy, ps: seq<Policy>, context: Context, engine: Engine)
    requires LeastTriggered(w, ps, context, engine)
    ensures w in ps && Decide(w, context, engine).triggered
  {
  }

  lemma {:induction false} RuleRowsAre(rules: seq<Rule>, event: Event, engine: Engine)
    ensures forall x :: x in RuleRowsFor(rules, event, engine) <==>
              exists r :: r in rules && r.enabled && r.allowOffline
                          && x == RuleRow(r.ruleId, event.eventId, event.agentId, TrulyMatches(r, event, engine))
  {
    hide Matches, TrulyMatches;
    if rules != [] {
      RuleRowsAre(rules[1..], event, engine);
      MatchesTruly(rules[0], event, engine);
      assert rules == [rules[0]] + rules[1..];
    }
  }
}
