/**
Versioned rules. A change reads the rule, works on what it read, and commits later; the key
(rule, version) of the history is all that stands between two such changes.
*/
module RuleHistory {
  import opened Options

  datatype Body = Body(enabled: bool, allowOffline: bool, text: string)

  /** A stored definition; only `logic` and `body` ever change. */
  datatype Definition = Definition(ruleId: string, code: string, createdAt: int, logic: string, body: Body)

  datatype Rule = Rule(definition: Definition, version: nat)

  datatype Patch = Patch(enabled: Option<bool>, allowOffline: Option<bool>, text: Option<string>)

  datatype Edit =
    | Update(patch: Patch)
    | Toggle(enabled: Option<bool>)
    | Rollback(version: int)

  datatype Tables = Tables(rules: map<string, Rule>, versions: map<(string, int), Definition>)

  function Or<T>(o: Option<T>, otherwise: T): T {
    if o.Some? then o.value else otherwise
  }

  function Merge(body: Body, patch: Patch): Body {
    Body(Or(patch.enabled, body.enabled), Or(patch.allowOffline, body.allowOffline), Or(patch.text, body.text))
  }

  /** What an edit writes over the row: an update spreads what was read, a toggle touches one column,
      a rollback copies a snapshot. None where a check refuses. */
  function Edited(row: Definition, read: Rule, edit: Edit, t: Tables, valid: Body -> bool): Option<Definition> {
    match edit
    case Update(patch) =>
      var body := Merge(read.definition.body, patch);
      if valid(body) then Some(row.(body := body)) else None
    case Toggle(wanted) =>
      var enabled := Or(wanted, !read.definition.body.enabled);
      if enabled && !valid(read.definition.body.(enabled := true)) then None
      else Some(row.(body := row.body.(enabled := enabled)))
    case Rollback(version) =>
      var key := (row.ruleId, version);
      if version < 1 || key !in t.versions || !valid(t.versions[key].body) then None
      else Some(row.(logic := t.versions[key].logic, body := t.versions[key].body))
  }

  /** One transaction of a writer that read `read`: row and snapshot, or nothing. */
  function Commit(t: Tables, ruleId: string, read: Rule, edit: Edit, valid: Body -> bool): Option<Tables> {
    if ruleId !in t.rules then None
    else
      var next := read.version + 1;
      var edited := Edited(t.rules[ruleId].definition, read, edit, t, valid);
      if edited.None? || (ruleId, next) in t.versions then None
      else Some(Tables(t.rules[ruleId := Rule(edited.value, next)], t.versions[(ruleId, next) := edited.value]))
  }

  predicate CodeTaken(rules: map<string, Rule>, name: string) {
    exists id :: id in rules && (id == name || rules[id].definition.code == name)
  }

  function Create(t: Tables, d: Definition, valid: Body -> bool): Option<Tables> {
    if !valid(d.body) || CodeTaken(t.rules, d.code) || d.ruleId in t.rules || (d.ruleId, 1) in t.versions then None
    else Some(Tables(t.rules[d.ruleId := Rule(d, 1)], t.versions[(d.ruleId, 1) := d]))
  }

  /** `linked`: some policy refers to the rule. */
  function Delete(t: Tables, ruleId: string, linked: bool): Option<Tables> {
    if ruleId !in t.rules || linked then None else Some(Tables(t.rules - {ruleId}, t.versions))
  }

  class RuleStore {
    var rules: map<string, Rule>
    var versions: map<(string, int), Definition>

    constructor ()
      ensures State() == Tables(map[], map[])
    { rules, versions := map[], map[]; }

    ghost function State(): Tables
      reads this
    { Tables(rules, versions) }

    /** The primary key refuses a version that is already there. */
    method SaveVersion(ruleId: string, version: int, d: Definition) returns (ok: bool)
      modifies this`versions
      ensures ok <==> (ruleId, version) !in old(versions)
      ensures versions == if ok then old(versions)[(ruleId, version) := d] else old(versions)
    {
      ok := (ruleId, version) !in versions;
      if ok { versions := versions[(ruleId, version) := d]; }
    }

    method CreateRule(d: Definition, valid: Body -> bool) returns (ok: bool)
      modifies this
      ensures ok <==> Create(old(State()), d, valid).Some?
      ensures State() == if ok then Create(old(State()), d, valid).value else old(State())
      ensures ok <==>
                && valid(d.body) && d.ruleId !in old(rules) && (d.ruleId, 1) !in old(versions)
                && forall id :: id in old(rules) ==> d.code != id && d.code != old(rules)[id].definition.code
      ensures ok ==> rules == old(rules)[d.ruleId := Rule(d, 1)] && versions == old(versions)[(d.ruleId, 1) := d]
    {
      if !valid(d.body) || CodeTaken(rules, d.code) || d.ruleId in rules { return false; }
      var before := rules;
      rules := rules[d.ruleId := Rule(d, 1)];
      ok := SaveVersion(d.ruleId, 1, d);
      if !ok { rules := before; }
    }

    /** The write half of `update_rule`, `toggle_rule` and `rollback_rule`. */
    method CommitEdit(ruleId: string, read: Rule, edit: Edit, valid: Body -> bool) returns (ok: bool)
      modifies this
      ensures ok <==> Commit(old(State()), ruleId, read, edit, valid).Some?
      ensures State() == if ok then Commit(old(State()), ruleId, read, edit, valid).value else old(State())
    {
      if ruleId !in rules { return false; }
      var before := rules;
      var edited := Edited(rules[ruleId].definition, read, edit, Tables(rules, versions), valid);
      if edited.None? { return false; }
      rules := rules[ruleId := Rule(edited.value, read.version + 1)];
      ok := SaveVersion(ruleId, read.version + 1, edited.value);
      if !ok { rules := before; }
    }

    method DeleteRule(ruleId: string, linked: bool) returns (ok: bool)
      modifies this`rules
      ensures ok <==> Delete(old(State()), ruleId, linked).Some?
      ensures State() == if ok then Delete(old(State()), ruleId, linked).value else old(State())
      ensures ok <==> ruleId in old(rules) && !linked
      ensures versions == old(versions) && rules == if ok then old(rules) - {ruleId} else old(rules)
    {
      ok := ruleId in rules && !linked;
      if ok { rules := rules - {ruleId}; }
    }
  }

  // ---------------------------------------------------------------- what an edit writes

  /** What the edit makes of the body: an update takes over the fields it names and otherwise what the writer read, a
      toggle sets or inverts one column, a rollback takes the snapshot's. */
  ghost predicate Writes(before: Definition, read: Body, edit: Edit, t: Tables, after: Definition) {
    && after.ruleId == before.ruleId && after.code == before.code && after.createdAt == before.createdAt
    && match edit
       case Update(p) =>
         && after.logic == before.logic
         && (p.enabled.Some? ==> after.body.enabled == p.enabled.value)
         && (p.enabled.None? ==> after.body.enabled == read.enabled)
         && (p.allowOffline.Some? ==> after.body.allowOffline == p.allowOffline.value)
         && (p.allowOffline.None? ==> after.body.allowOffline == read.allowOffline)
         && (p.text.Some? ==> after.body.text == p.text.value)
         && (p.text.None? ==> after.body.text == read.text)
       case Toggle(wanted) =>
         && after.logic == before.logic
         && after.body.allowOffline == before.body.allowOffline && after.body.text == before.body.text
         && (wanted.Some? ==> after.body.enabled == wanted.value)
         && (wanted.None? ==> after.body.enabled == !read.enabled)
       case Rollback(v) =>
         && (before.ruleId, v) in t.versions && after.logic == t.versions[(before.ruleId, v)].logic
         && after.body == t.versions[(before.ruleId, v)].body
  }

  /** A commit adds one version after the one that was read, as the edit writes it, both live and as a snapshot; no
      other rule and no other version changes. What it leaves enabled by a toggle or writes otherwise is valid. */
  lemma CommitWritesTheEdit(t: Tables, id: string, read: Rule, edit: Edit, valid: Body -> bool)
    requires Commit(t, id, read, edit, valid).Some?
    ensures var after := Commit(t, id, read, edit, valid).value;
      && id in t.rules && id in after.rules && (id, read.version + 1) !in t.versions
      && after.rules == t.rules[id := after.rules[id]] && after.rules[id].version == read.version + 1
      && after.versions == t.versions[(id, read.version + 1) := after.rules[id].definition]
      && Writes(t.rules[id].definition, read.definition.body, edit, t, after.rules[id].definition)
      && (!edit.Toggle? ==> valid(after.rules[id].definition.body))
      && (edit.Toggle? && after.rules[id].definition.body.enabled ==>
            valid(Body(true, read.definition.body.allowOffline, read.definition.body.text)))
  {
  }

  /** A commit fails exactly when the rule is gone, the next version is taken, or the result would not be valid. */
  lemma CommitFailsExactly(t: Tables, id: string, read: Rule, edit: Edit, valid: Body -> bool)
    ensures Commit(t, id, read, edit, valid).None? <==>
              || id !in t.rules || (id, read.version + 1) in t.versions
              || match edit
                 case Update(p) =>
                   !valid(Body(if p.enabled.Some? then p.enabled.value else read.definition.body.enabled,
                               if p.allowOffline.Some? then p.allowOffline.value else read.definition.body.allowOffline,
                               if p.text.Some? then p.text.value else read.definition.body.text))
                 case Toggle(wanted) =>
                   && (if wanted.Some? then wanted.value else !read.definition.body.enabled)
                   && !valid(Body(true, read.definition.body.allowOffline, read.definition.body.text))
                 case Rollback(v) =>
                   var key := (t.rules[id].definition.ruleId, v);
                   v < 1 || key !in t.versions || !valid(t.versions[key].body)
  {
  }

  // ---------------------------------------------------------------- runs of interleaved writers

  datatype Action =
    | Creation(definition: Definition)
    | Read(ruleId: string)
    | Writing(ruleId: string, read: Rule, edit: Edit)
    | Deletion(ruleId: string, linked: bool)

  /** The tables, and everything any writer has read so far. */
  datatype World = World(tables: Tables, seen: set<(string, Rule)>)

  const START := World(Tables(map[], map[]), {})

  function Keep(w: World, t: Option<Tables>): World {
    if t.Some? then w.(tables := t.value) else w
  }

  function Perform(w: World, a: Action, valid: Body -> bool): World {
    match a
    case Creation(d) => Keep(w, Create(w.tables, d, valid))
    case Read(id) => if id in w.tables.rules then w.(seen := w.seen + {(id, w.tables.rules[id])}) else w
    case Writing(id, read, edit) => if (id, read) in w.seen then Keep(w, Commit(w.tables, id, read, edit, valid)) else w
    case Deletion(id, linked) => Keep(w, Delete(w.tables, id, linked))
  }

  function Run(w: World, actions: seq<Action>, valid: Body -> bool): World {
    if actions == [] then w
    else Perform(Run(w, actions[..|actions| - 1], valid), actions[|actions| - 1], valid)
  }

  /** A rule's versions are 1 to its current one without a hole, and the newest is what is live. */
  ghost predicate History(t: Tables, id: string) {
    && id in t.rules
    && (forall v: int :: (id, v) in t.versions <==> 1 <= v <= t.rules[id].version)
    && t.rules[id].version >= 1
    && t.versions[(id, t.rules[id].version)] == t.rules[id].definition
    && t.rules[id].definition.ruleId == id
  }

  /** Nothing read is ahead of the table, and every rule ever read has left its first version. */
  ghost predicate Consistent(w: World) {
    && (forall id :: id in w.tables.rules ==> History(w.tables, id))
    && (forall id, v: int :: (id, v) in w.tables.versions ==> (id, 1) in w.tables.versions)
    && (forall s :: s in w.seen ==> (s.0, 1) in w.tables.versions
                                    && (s.0 in w.tables.rules ==> 1 <= s.1.version <= w.tables.rules[s.0].version))
  }

  /** A writer commits only from the current version. */
  lemma CommitMeansCurrent(w: World, id: string, read: Rule, edit: Edit, valid: Body -> bool)
    requires Consistent(w) && (id, read) in w.seen && Commit(w.tables, id, read, edit, valid).Some?
    ensures read.version == w.tables.rules[id].version
  {
    assert History(w.tables, id);
    assert (id, read.version + 1) !in w.tables.versions;
  }

  /** What was a snapshot still is. */
  ghost predicate Grows(t: Tables, after: Tables) {
    forall k :: k in t.versions ==> k in after.versions && after.versions[k] == t.versions[k]
  }

  lemma WritingKeepsHistory(w: World, id: string, read: Rule, edit: Edit, valid: Body -> bool)
    requires Consistent(w)
    ensures var after := Perform(w, Writing(id, read, edit), valid);
      Consistent(after) && Grows(w.tables, after.tables)
  {
    var after := Perform(w, Writing(id, read, edit), valid);
    if (id, read) in w.seen && Commit(w.tables, id, read, edit, valid).Some? {
      CommitMeansCurrent(w, id, read, edit, valid);
      assert History(w.tables, id);
      forall other | other in after.tables.rules ensures History(after.tables, other) {
        assert History(w.tables, other);
      }
    }
  }

  lemma CreationKeepsHistory(w: World, d: Definition, valid: Body -> bool)
    requires Consistent(w)
    ensures var after := Perform(w, Creation(d), valid);
      Consistent(after) && Grows(w.tables, after.tables)
  {
    var after := Perform(w, Creation(d), valid);
    if Create(w.tables, d, valid).Some? {
      forall other | other in after.tables.rules ensures History(after.tables, other) {
        if other != d.ruleId {
          assert History(w.tables, other);
        }
      }
    }
  }

  lemma StepKeepsHistory(w: World, a: Action, valid: Body -> bool)
    requires Consistent(w)
    ensures Consistent(Perform(w, a, valid)) && Grows(w.tables, Perform(w, a, valid).tables)
  {
    hide Create, Commit;
    var after := Perform(w, a, valid);
    match a
    case Writing(id, read, edit) => WritingKeepsHistory(w, id, read, edit, valid);
    case Creation(d) => CreationKeepsHistory(w, d, valid);
    case Read(id) =>
      assert id in w.tables.rules ==> History(w.tables, id);
    case Deletion(id, linked) =>
      forall other | other in after.tables.rules ensures History(after.tables, other) {
        assert History(w.tables, other);
      }
  }

  /** In every reachable state the live versions are exactly 1 to the current one, the newest snapshot
      is the live definition, and what was once a snapshot still is. */
  lemma {:induction false} HistoryIsAppendOnly(w: World, actions: seq<Action>, valid: Body -> bool)
    requires Consistent(w)
    ensures Consistent(Run(w, actions, valid))
    ensures Grows(w.tables, Run(w, actions, valid).tables)
    ensures w.seen <= Run(w, actions, valid).seen
  {
    if actions == [] {
    } else {
      HistoryIsAppendOnly(w, actions[..|actions| - 1], valid);
      StepKeepsHistory(Run(w, actions[..|actions| - 1], valid), actions[|actions| - 1], valid);
    }
  }

  lemma EmptyTablesAreConsistent()
    ensures Consistent(START)
  {
  }

  /** Of all writers that read the same version, whatever happens in between, one at most commits. */
  lemma StaleWriterNeverCommits(before: seq<Action>, id: string, read: Rule, first: Edit, between: seq<Action>,
                                second: Edit, otherRead: Rule, valid: Body -> bool)
    requires var w := Run(START, before, valid);
             (id, read) in w.seen && Commit(w.tables, id, read, first, valid).Some?
    requires otherRead.version == read.version
    ensures var w := Run(START, before, valid);
            var committed := World(Commit(w.tables, id, read, first, valid).value, w.seen);
            Commit(Run(committed, between, valid).tables, id, otherRead, second, valid).None?
  {
    var w := Run(START, before, valid);
    EmptyTablesAreConsistent();
    HistoryIsAppendOnly(START, before, valid);
    StepKeepsHistory(w, Writing(id, read, first), valid);
    var committed := Perform(w, Writing(id, read, first), valid);
    assert (id, read.version + 1) in committed.tables.versions;
    HistoryIsAppendOnly(committed, between, valid);
  }

  /** Rolling back to `v` and then to the version before restores the definition, whole and unchanged. */
  lemma RollbackIsUndone(before: seq<Action>, id: string, v: int, valid: Body -> bool)
    requires var t := Run(START, before, valid).tables;
             id in t.rules && 1 <= v <= t.rules[id].version
             && (id, v) in t.versions && valid(t.versions[(id, v)].body) && valid(t.rules[id].definition.body)
    ensures var t := Run(START, before, valid).tables;
            var there := Commit(t, id, t.rules[id], Rollback(v), valid);
      && there.Some? && there.value.rules[id].definition.body == t.versions[(id, v)].body
      && var back := Commit(there.value, id, there.value.rules[id], Rollback(t.rules[id].version), valid);
         back.Some? && back.value.rules[id] == Rule(t.rules[id].definition, t.rules[id].version + 2)
  {
    hide Run;
    EmptyTablesAreConsistent();
    HistoryIsAppendOnly(START, before, valid);
    var t := Run(START, before, valid).tables;
    assert History(t, id);
    var c := t.rules[id].version;
    assert (id, c + 1) !in t.versions && (id, c + 2) !in t.versions;
  }

  /** Versions outlive their rule: an identifier that was ever used cannot be created again. */
  lemma UsedIdentifierIsGone(before: seq<Action>, d: Definition, between: seq<Action>, later: Definition,
                             valid: Body -> bool)
    requires Create(Run(START, before, valid).tables, d, valid).Some?
    requires later.ruleId == d.ruleId
    ensures var created := Perform(Run(START, before, valid), Creation(d), valid);
            Create(Run(created, between, valid).tables, later, valid).None?
  {
    EmptyTablesAreConsistent();
    HistoryIsAppendOnly(START, before, valid);
    StepKeepsHistory(Run(START, before, valid), Creation(d), valid);
    var created := Perform(Run(START, before, valid), Creation(d), valid);
    assert (d.ruleId, 1) in created.tables.versions;
    HistoryIsAppendOnly(created, between, valid);
  }

  /** Some creation under this identifier succeeded. */
  ghost predicate EverCreated(actions: seq<Action>, id: string, valid: Body -> bool) {
    actions != [] &&
    (EverCreated(actions[..|actions| - 1], id, valid)
     || var last := actions[|actions| - 1];
        last.Creation? && last.definition.ruleId == id
        && Create(Run(START, actions[..|actions| - 1], valid).tables, last.definition, valid).Some?)
  }

  lemma {:induction false} FirstVersionsAreOfTheCreated(actions: seq<Action>, id: string, valid: Body -> bool)
    ensures (id, 1) in Run(START, actions, valid).tables.versions <==> EverCreated(actions, id, valid)
  {
    if actions != [] {
      var before, last := actions[..|actions| - 1], actions[|actions| - 1];
      FirstVersionsAreOfTheCreated(before, id, valid);
      EmptyTablesAreConsistent();
      HistoryIsAppendOnly(START, before, valid);
      FirstVersionIsFromCreation(Run(START, before, valid), last, id, valid);
    }
  }

  /** No other action adds a first version. */
  lemma FirstVersionIsFromCreation(w: World, a: Action, id: string, valid: Body -> bool)
    requires Consistent(w)
    ensures (id, 1) in Perform(w, a, valid).tables.versions <==>
              || (id, 1) in w.tables.versions
              || (a.Creation? && a.definition.ruleId == id && Create(w.tables, a.definition, valid).Some?)
  {
    hide Edited;
    if a.Writing? && (a.ruleId, a.read) in w.seen && Commit(w.tables, a.ruleId, a.read, a.edit, valid).Some? {
      CommitMeansCurrent(w, a.ruleId, a.read, a.edit, valid);
      assert History(w.tables, a.ruleId);
    }
  }

  /** So a valid rule whose code is free is accepted if and only if its identifier was never used before. */
  lemma IdentifierIsFreeExactly(actions: seq<Action>, d: Definition, valid: Body -> bool)
    requires valid(d.body) && !CodeTaken(Run(START, actions, valid).tables.rules, d.code)
    ensures Create(Run(START, actions, valid).tables, d, valid).Some? <==> !EverCreated(actions, d.ruleId, valid)
  {
    FirstVersionsAreOfTheCreated(actions, d.ruleId, valid);
    EmptyTablesAreConsistent();
    HistoryIsAppendOnly(START, actions, valid);
    var t := Run(START, actions, valid).tables;
    assert d.ruleId in t.rules ==> History(t, d.ruleId);
  }

  /** A writer that reads a rule and writes before anyone else does commits, unless what it would write is not valid. */
  lemma CurrentWriterCommits(before: seq<Action>, id: string, edit: Edit, valid: Body -> bool)
    requires id in Run(START, before, valid).tables.rules
    ensures var w := Run(START, before, valid);
            var read := w.tables.rules[id];
            var after := Perform(Perform(w, Read(id), valid), Writing(id, read, edit), valid).tables;
      if Edited(read.definition, read, edit, w.tables, valid).None? then after == w.tables
      else id in after.rules && after.rules[id].version == read.version + 1
           && Writes(read.definition, read.definition.body, edit, w.tables, after.rules[id].definition)
  {
    hide Run;
    EmptyTablesAreConsistent();
    HistoryIsAppendOnly(START, before, valid);
    var t := Run(START, before, valid).tables;
    assert History(t, id);
    assert (id, t.rules[id].version + 1) !in t.versions;
  }
}
