/**
 What an open transaction has written but not committed, and the state its own statements
 see: the committed rows overlaid with its writes (READ COMMITTED, section 13.2.1 of the
 PostgreSQL documentation).
 */
module Transactions {
  import opened Wrappers
  import opened Schema
  import opened Statements

  /** Uncommitted writes: Some is the new row, None a deleted one. */
  datatype Delta = Delta(
    users: map<Uuid, Option<UserRow>>,
    flags: map<Uuid, Option<FlagRow>>,
    rules: map<Uuid, Option<RuleRow>>,
    experiments: map<Uuid, Option<ExperimentRow>>,
    variants: map<Uuid, Option<VariantRow>>,
    audit: seq<AuditRow>)

  const NO_WRITES := Delta(map[], map[], map[], map[], map[], [])

  /** Rows of a table with the changes laid over them. */
  function Overlay<V>(rows: map<Uuid, V>, changes: map<Uuid, Option<V>>): (r: map<Uuid, V>)
    ensures forall i :: i in r <==> if i in changes then changes[i].Some? else i in rows
    ensures forall i :: i in r ==> r[i] == if i in changes then changes[i].value else rows[i]
  {
    map i | i in rows.Keys + changes.Keys && (if i in changes then changes[i].Some? else i in rows) ::
      if i in changes then changes[i].value else rows[i]
  }

  predicate Deletes<V(==)>(changes: map<Uuid, Option<V>>, i: Uuid) {
    i in changes && changes[i] == None
  }

  /** ON DELETE CASCADE from feature_flags to flag_rules. */
  function CascadeRules(rules: map<Uuid, RuleRow>, flags: map<Uuid, Option<FlagRow>>): map<Uuid, RuleRow> {
    map r | r in rules && !Deletes(flags, rules[r].flag) :: rules[r]
  }

  /** ON DELETE CASCADE from users to experiment_assignments. */
  function CascadeAssignments(
    assignments: map<(Uuid, Uuid), Uuid>, users: map<Uuid, Option<UserRow>>): map<(Uuid, Uuid), Uuid>
  {
    map a | a in assignments && !Deletes(users, a.0) :: assignments[a]
  }

  /** The state a transaction with these writes sees, and leaves when it commits. */
  function View(c: Tables, d: Delta): Tables {
    Tables(
      Overlay(c.users, d.users),
      Overlay(c.flags, d.flags),
      CascadeRules(Overlay(c.rules, d.rules), d.flags),
      Overlay(c.experiments, d.experiments),
      Overlay(c.variants, d.variants),
      CascadeAssignments(c.assignments, d.users),
      c.audit + d.audit)
  }

  function Erase<V>(changes: map<Uuid, Option<V>>, ids: set<Uuid>): map<Uuid, Option<V>> {
    changes + map i | i in ids :: None
  }

  /**
   The writes after one more statement that took effect. A DELETE works from the snapshot it
   took when it started, so it can miss rows that were committed while it scanned or waited
   for another transaction's lock: those are the missed ones.
   */
  function Record(c: Tables, d: Delta, s: Statement, id: Uuid, missed: set<Uuid>): Delta {
    match s
    case InsertUser(row) => d.(users := d.users[id := Some(row)])
    case UpdateUser(u, row) => d.(users := d.users[u := Some(row)])
    case DeleteUser(u) => d.(users := d.users[u := None])
    case InsertFlag(row) => d.(flags := d.flags[id := Some(row)])
    case UpdateFlag(f, row) => d.(flags := d.flags[f := Some(row)])
    case DeleteFlag(f) => d.(flags := d.flags[f := None])
    case DeleteRules(f) => d.(rules := Erase(d.rules, RuleIds(View(c, d).rules, f) - missed))
    case InsertRule(row) => d.(rules := d.rules[id := Some(row)])
    case InsertExperiment(row) => d.(experiments := d.experiments[id := Some(row)])
    case InsertVariant(row) => d.(variants := d.variants[id := Some(row)])
  }

  function Untouched(d: Delta, id: Uuid): bool {
    id !in d.users && id !in d.flags && id !in d.rules && id !in d.experiments && id !in d.variants
  }

  lemma ViewOfNothing(c: Tables)
    ensures View(c, NO_WRITES) == c
  {
    assert Overlay(c.users, map[]) == c.users;
    assert Overlay(c.flags, map[]) == c.flags;
    assert CascadeRules(Overlay(c.rules, map[]), map[]) == c.rules;
    assert Overlay(c.experiments, map[]) == c.experiments;
    assert Overlay(c.variants, map[]) == c.variants;
    assert CascadeAssignments(c.assignments, map[]) == c.assignments;
    assert c.audit + [] == c.audit;
  }

  lemma OverlaySet<V>(rows: map<Uuid, V>, changes: map<Uuid, Option<V>>, i: Uuid, v: V)
    ensures Overlay(rows, changes[i := Some(v)]) == Overlay(rows, changes)[i := v]
  {
  }

  lemma OverlayDrop<V>(rows: map<Uuid, V>, changes: map<Uuid, Option<V>>, i: Uuid)
    ensures Overlay(rows, changes[i := None]) == Overlay(rows, changes) - {i}
  {
  }

  lemma CascadeSame(rules: map<Uuid, RuleRow>, flags: map<Uuid, Option<FlagRow>>, f: Uuid, row: FlagRow)
    requires !Deletes(flags, f)
    ensures CascadeRules(rules, flags[f := Some(row)]) == CascadeRules(rules, flags)
  {
    forall i
      ensures Deletes(flags[f := Some(row)], i) == Deletes(flags, i)
    {
    }
  }

  lemma CascadeDrop(rules: map<Uuid, RuleRow>, flags: map<Uuid, Option<FlagRow>>, f: Uuid)
    ensures CascadeRules(rules, flags[f := None])
      == CascadeRules(rules, flags) - RuleIds(CascadeRules(rules, flags), f)
  {
    forall i
      ensures Deletes(flags[f := None], i) == (i == f || Deletes(flags, i))
    {
    }
  }

  lemma CascadeErase(
    c: map<Uuid, RuleRow>, rules: map<Uuid, Option<RuleRow>>, flags: map<Uuid, Option<FlagRow>>, ids: set<Uuid>)
    ensures CascadeRules(Overlay(c, Erase(rules, ids)), flags) == CascadeRules(Overlay(c, rules), flags) - ids
  {
  }

  lemma CascadeInsert(
    rules: map<Uuid, RuleRow>, flags: map<Uuid, Option<FlagRow>>, r: Uuid, row: RuleRow)
    requires !Deletes(flags, row.flag)
    ensures CascadeRules(rules[r := row], flags) == CascadeRules(rules, flags)[r := row]
  {
  }

  lemma AssignmentsSame(
    assignments: map<(Uuid, Uuid), Uuid>, users: map<Uuid, Option<UserRow>>, u: Uuid, row: UserRow)
    requires !Deletes(users, u)
    ensures CascadeAssignments(assignments, users[u := Some(row)]) == CascadeAssignments(assignments, users)
  {
    forall i
      ensures Deletes(users[u := Some(row)], i) == Deletes(users, i)
    {
    }
  }

  lemma AssignmentsDrop(assignments: map<(Uuid, Uuid), Uuid>, users: map<Uuid, Option<UserRow>>, u: Uuid)
    ensures CascadeAssignments(assignments, users[u := None])
      == WithoutUser(CascadeAssignments(assignments, users), u)
  {
    forall i
      ensures Deletes(users[u := None], i) == (i == u || Deletes(users, i))
    {
    }
  }

  lemma SeesUserWrites(c: Tables, d: Delta, s: Statement, id: Uuid)
    requires s.InsertUser? || s.UpdateUser? || s.DeleteUser?
    requires Exec(View(c, d), s, id).Applied? && (Mints(s) ==> Untouched(d, id))
    ensures View(c, Record(c, d, s, id, {})) == Exec(View(c, d), s, id).tables
  {
    hide EmailTaken, CascadeRules, CascadeAssignments, WithoutUser;
    match s
    case InsertUser(row) =>
      OverlaySet(c.users, d.users, id, row);
      AssignmentsSame(c.assignments, d.users, id, row);
    case UpdateUser(u, row) =>
      OverlaySet(c.users, d.users, u, row);
      AssignmentsSame(c.assignments, d.users, u, row);
    case DeleteUser(u) =>
      OverlayDrop(c.users, d.users, u);
      AssignmentsDrop(c.assignments, d.users, u);
  }

  lemma SeesFlagWrites(c: Tables, d: Delta, s: Statement, id: Uuid)
    requires s.InsertFlag? || s.UpdateFlag? || s.DeleteFlag?
    requires Exec(View(c, d), s, id).Applied? && (Mints(s) ==> Untouched(d, id))
    ensures View(c, Record(c, d, s, id, {})) == Exec(View(c, d), s, id).tables
  {
    hide FlagKeyTaken, CascadeRules, CascadeAssignments, RuleIds;
    match s
    case InsertFlag(row) =>
      OverlaySet(c.flags, d.flags, id, row);
      CascadeSame(Overlay(c.rules, d.rules), d.flags, id, row);
    case UpdateFlag(f, row) =>
      OverlaySet(c.flags, d.flags, f, row);
      CascadeSame(Overlay(c.rules, d.rules), d.flags, f, row);
    case DeleteFlag(f) =>
      OverlayDrop(c.flags, d.flags, f);
      CascadeDrop(Overlay(c.rules, d.rules), d.flags, f);
  }

  lemma SeesRuleWrites(c: Tables, d: Delta, s: Statement, id: Uuid)
    requires s.DeleteRules? || s.InsertRule?
    requires Exec(View(c, d), s, id).Applied? && (Mints(s) ==> Untouched(d, id))
    ensures View(c, Record(c, d, s, id, {})) == Exec(View(c, d), s, id).tables
  {
    hide CascadeRules, CascadeAssignments, RuleIds, Erase;
    match s
    case DeleteRules(f) =>
      var ids := RuleIds(View(c, d).rules, f);
      assert ids - {} == ids;
      CascadeErase(c.rules, d.rules, d.flags, ids);
    case InsertRule(row) =>
      OverlaySet(c.rules, d.rules, id, row);
      CascadeInsert(Overlay(c.rules, d.rules), d.flags, id, row);
  }

  /**
   A transaction sees its own writes: laying the recorded write over the committed rows
   gives what the statement does to the state the transaction saw.
   */
  lemma SeesOwnWrites(c: Tables, d: Delta, s: Statement, id: Uuid)
    requires Exec(View(c, d), s, id).Applied?
    requires Mints(s) ==> Untouched(d, id)
    ensures View(c, Record(c, d, s, id, {})) == Exec(View(c, d), s, id).tables
  {
    if s.InsertUser? || s.UpdateUser? || s.DeleteUser? {
      hide *;
      SeesUserWrites(c, d, s, id);
    } else if s.InsertFlag? || s.UpdateFlag? || s.DeleteFlag? {
      hide *;
      SeesFlagWrites(c, d, s, id);
    } else if s.DeleteRules? || s.InsertRule? {
      hide *;
      SeesRuleWrites(c, d, s, id);
    } else {
      hide CascadeRules, CascadeAssignments, ExperimentKeyTaken;
      match s
      case InsertExperiment(row) => OverlaySet(c.experiments, d.experiments, id, row);
      case InsertVariant(row) => OverlaySet(c.variants, d.variants, id, row);
    }
  }

  /** A transaction sees no id that is neither committed nor its own. */
  lemma NotSeen(c: Tables, d: Delta, x: Uuid)
    requires x !in IdsOf(c) && Untouched(d, x)
    ensures x !in View(c, d).users && x !in View(c, d).flags && x !in View(c, d).rules
  {
  }

  lemma ErasesOnlySeen(
    changes: map<Uuid, Option<RuleRow>>, rules: map<Uuid, RuleRow>, f: Uuid, missed: set<Uuid>, x: Uuid)
    requires x !in changes && x !in rules
    ensures x !in Erase(changes, RuleIds(rules, f) - missed)
  {
  }

  lemma HitsItsRow(t: Tables, s: Statement, id: Uuid)
    requires Exec(t, s, id).Applied?
    ensures s.UpdateUser? || s.DeleteUser? ==> s.userId in t.users
    ensures s.UpdateFlag? || s.DeleteFlag? ==> s.flagId in t.flags
  {
  }

  lemma TouchesNoNewUser(c: Tables, d: Delta, s: Statement, id: Uuid, missed: set<Uuid>, other: Uuid)
    requires s.InsertUser? || s.UpdateUser? || s.DeleteUser?
    requires Untouched(d, other) && other !in IdsOf(c) && (Mints(s) ==> other != id)
    requires Exec(View(c, d), s, id).Applied?
    ensures Untouched(Record(c, d, s, id, missed), other) && Record(c, d, s, id, missed).audit == d.audit
  {
    HitsItsRow(View(c, d), s, id);
    NotSeen(c, d, other);
    hide Exec, View, IdsOf;
  }

  lemma TouchesNoNewFlag(c: Tables, d: Delta, s: Statement, id: Uuid, missed: set<Uuid>, other: Uuid)
    requires s.InsertFlag? || s.UpdateFlag? || s.DeleteFlag?
    requires Untouched(d, other) && other !in IdsOf(c) && (Mints(s) ==> other != id)
    requires Exec(View(c, d), s, id).Applied?
    ensures Untouched(Record(c, d, s, id, missed), other) && Record(c, d, s, id, missed).audit == d.audit
  {
    HitsItsRow(View(c, d), s, id);
    NotSeen(c, d, other);
    hide Exec, View, IdsOf;
  }

  /** A statement writes no id but those the transaction sees and the one it generates. */
  lemma TouchesNothingNew(c: Tables, d: Delta, s: Statement, id: Uuid, missed: set<Uuid>, other: Uuid)
    requires Untouched(d, other) && other !in IdsOf(c) && (Mints(s) ==> other != id)
    requires Exec(View(c, d), s, id).Applied?
    ensures Untouched(Record(c, d, s, id, missed), other) && Record(c, d, s, id, missed).audit == d.audit
  {
    if s.InsertUser? || s.UpdateUser? || s.DeleteUser? {
      hide *;
      TouchesNoNewUser(c, d, s, id, missed, other);
    } else if s.InsertFlag? || s.UpdateFlag? || s.DeleteFlag? {
      hide *;
      TouchesNoNewFlag(c, d, s, id, missed, other);
    } else if s.DeleteRules? {
      NotSeen(c, d, other);
      hide Exec, View, IdsOf, Erase, RuleIds;
      ErasesOnlySeen(d.rules, View(c, d).rules, s.flagId, missed, other);
    } else {
      hide Exec, View, IdsOf, Erase, RuleIds;
    }
  }
}
