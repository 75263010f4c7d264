/**
 The invariant of every interleaving: the committed tables keep the schema's constraints,
 each open transaction works on one target row and its children, and no two open
 transactions hold conflicting writes.
 */
module Isolation {
  import opened Wrappers
  import opened Schema
  import opened Statements
  import opened FlagRules
  import opened Weights
  import opened Protocol
  import opened Transactions
  import opened Merging
  import opened Interleaving

  /** The (key, environment) a flag mutation is aimed at. */
  function FlagKeyAimed(m: Mutation): (string, string) {
    match m
    case CreateFlag(input) => (input.key, input.environment)
    case UpdateFlag(change) => (change.key, EnvironmentOf(change))
    case DeleteFlag(key, environment) => (key, environment)
    case _ => ("", "")
  }

  /** A flag mutation aimed at this key and environment. */
  predicate AimedAt(m: Mutation, key: string, environment: string) {
    EntityOf(m) == FeatureFlag && FlagKeyAimed(m) == (key, environment)
  }

  /** The statement is one this mutation runs on this target. */
  predicate OnTarget(m: Mutation, x: Uuid, s: Statement) {
    match s
    case UpdateUser(u, _) => m.UpdateUser? && u == x
    case DeleteUser(u) => m.DeleteUser? && u == x
    case UpdateFlag(f, row) => m.UpdateFlag? && f == x && FlagKeyOf(row) == FlagKeyAimed(m)
    case DeleteFlag(f) => m.DeleteFlag? && f == x
    case DeleteRules(f) => (m.CreateFlag? || m.UpdateFlag?) && f == x
    case InsertRule(row) => (m.CreateFlag? || m.UpdateFlag?) && row.flag == x
    case InsertVariant(row) => m.CreateExperiment? && row.experiment == x
    case _ => false
  }

  /** The update or delete of the target row itself. */
  predicate IsKeyWrite(s: Statement) {
    s.UpdateUser? || s.DeleteUser? || s.UpdateFlag? || s.DeleteFlag?
  }

  ghost predicate OnlyUser(d: Delta, x: Uuid) {
    d.users.Keys <= {x} && d.flags == map[] && d.rules == map[] && d.experiments == map[] && d.variants == map[]
  }

  ghost predicate OnlyFlag(c: Tables, d: Delta, x: Uuid) {
    && d.users == map[] && d.experiments == map[] && d.variants == map[]
    && d.flags.Keys <= {x}
    && (forall r :: r in d.rules && d.rules[r].Some? ==> d.rules[r].value.flag == x && r !in c.rules)
    && (forall r :: r in d.rules && r in c.rules ==> c.rules[r].flag == x)
  }

  ghost predicate OnlyExperiment(c: Tables, d: Delta, x: Uuid) {
    && d.users == map[] && d.flags == map[] && d.rules == map[]
    && d.experiments.Keys <= {x}
    && NeverDeletes(d.experiments)
    && (forall v :: v in d.variants ==> d.variants[v].Some? && d.variants[v].value.experiment == x && v !in c.variants)
  }

  /** All writes concern the target entity and its children. */
  ghost predicate Touches(c: Tables, d: Delta, e: Entity, x: Uuid) {
    match e
    case User => OnlyUser(d, x)
    case FeatureFlag => OnlyFlag(c, d, x)
    case Experiment => OnlyExperiment(c, d, x)
  }

  /** The target row itself has been written. */
  predicate RowWritten(d: Delta, e: Entity, x: Uuid) {
    match e
    case User => x in d.users
    case FeatureFlag => x in d.flags
    case Experiment => x in d.experiments
  }

  /** The target row is written as the mutation asks. */
  predicate Wrote(m: Mutation, d: Delta, x: Uuid) {
    match m
    case CreateFlag(_) =>
      x in d.flags && d.flags[x].Some? && FlagKeyOf(d.flags[x].value) == FlagKeyAimed(m) && !d.flags[x].value.enabled
    case UpdateFlag(_) => x in d.flags && d.flags[x].Some? && FlagKeyOf(d.flags[x].value) == FlagKeyAimed(m)
    case DeleteFlag(_, _) => Deletes(d.flags, x)
    case CreateUser(input) => x in d.users && d.users[x].Some? && d.users[x].value.email == input.email
    case UpdateUser(_) => x in d.users && d.users[x].Some?
    case DeleteUser(_) => Deletes(d.users, x)
    case CreateExperiment(input) =>
      && x in d.experiments && d.experiments[x].Some?
      && ExperimentKeyOf(d.experiments[x].value) == (input.key, input.environment)
  }

  /** The statements still to run: on the target, and its own write comes last. */
  ghost predicate Scheduled(m: Mutation, d: Delta, x: Uuid, todo: seq<Statement>) {
    && (forall i :: 0 <= i < |todo| ==> OnTarget(m, x, todo[i]))
    && (if ActionOf(m) == Create then Wrote(m, d, x)
        else if RowWritten(d, EntityOf(m), x) then Wrote(m, d, x) && todo == []
        else
          && todo != []
          && IsKeyWrite(todo[|todo| - 1])
          && forall i :: 0 <= i < |todo| - 1 ==> !IsKeyWrite(todo[i]))
  }

  /** How the target stands in the committed tables. */
  ghost predicate Standing(c: Tables, m: Mutation, d: Delta, x: Uuid) {
    && (ActionOf(m) == Create ==> !LiveIn(c, EntityOf(m), x))
    && (ActionOf(m) != Create && RowWritten(d, EntityOf(m), x) ==> LiveIn(c, EntityOf(m), x))
    && (EntityOf(m) == FeatureFlag && x in c.flags ==> FlagKeyOf(c.flags[x]) == FlagKeyAimed(m))
    && (m.UpdateUser? ==> ParseUuid(m.userChange.id) == Some(x))
    && (m.DeleteUser? ==> ParseUuid(m.userId) == Some(x))
  }

  function WrittenIds(d: Delta): set<Uuid> {
    d.users.Keys + d.flags.Keys + d.rules.Keys + d.experiments.Keys + d.variants.Keys
  }

  ghost predicate RunningOk(
    c: Tables, issued: set<Uuid>, m: Mutation, d: Delta, x: Uuid, todo: seq<Statement>)
  {
    && Touches(c, d, EntityOf(m), x)
    && Scheduled(m, d, x, todo)
    && Standing(c, m, d, x)
    && WrittenIds(d) <= issued
    && (ActionOf(m) == Create || EntityOf(m) == FeatureFlag ==> x in issued)
  }

  /** The parent row a create starts with. */
  predicate Opens(m: Mutation, s: Statement) {
    match m
    case CreateFlag(input) =>
      && s.InsertFlag? && FlagKeyOf(s.flag) == FlagKeyAimed(m) && !s.flag.enabled
      && ResolveStrategyForCreate(input) == Success(s.flag.strategy)
    case CreateUser(input) => s.InsertUser? && s.user.email == input.email && s.user.role == input.role
    case CreateExperiment(input) =>
      && s.InsertExperiment?
      && ExperimentKeyOf(s.experiment) == (input.key, input.environment)
      && Verdict(WeightsOf(input.variants)).Success?
    case _ => false
  }

  /** The audit row a transaction writes for its target. */
  predicate AuditFor(tx: Tx, x: Uuid, row: AuditRow) {
    && row.entity == EntityOf(tx.mutation)
    && row.entityId == LoggedId(tx.mutation, x)
    && row.action == ActionOf(tx.mutation)
    && ParseUuid(tx.actor) == Some(row.actor)
  }

  ghost predicate TxOk(c: Tables, issued: set<Uuid>, tx: Tx) {
    match tx.phase
    case Inserting(insert) => tx.delta == NO_WRITES && Opens(tx.mutation, insert)
    case Running(x, todo) =>
      tx.delta.audit == [] && RunningOk(c, issued, tx.mutation, tx.delta, x, todo)
    case Logged(x) =>
      && |tx.delta.audit| == 1
      && AuditFor(tx, x, tx.delta.audit[0])
      && RunningOk(c, issued, tx.mutation, tx.delta, x, [])
    case _ => tx.delta == NO_WRITES
  }

  function TargetOf(tx: Tx): Option<Uuid> {
    match tx.phase
    case Running(x, _) => Some(x)
    case Logged(x) => Some(x)
    case _ => None
  }

  /** Nobody else works on a flag that is still being created. */
  ghost predicate KeepsOwnFlag(t1: Tx, t2: Tx) {
    t1.mutation.CreateFlag? && EntityOf(t2.mutation) == FeatureFlag && TargetOf(t1).Some? ==>
      TargetOf(t1) != TargetOf(t2)
  }

  ghost predicate Apart(t1: Tx, t2: Tx) {
    && Compatible(t1.delta, t2.delta)
    && KeepsOwnFlag(t1, t2)
    && KeepsOwnFlag(t2, t1)
  }

  ghost predicate Isolated(txs: map<nat, Tx>) {
    forall j, k :: j in txs && k in txs && j != k ==> Apart(txs[j], txs[k])
  }

  ghost predicate AllTxOk(c: Tables, issued: set<Uuid>, txs: map<nat, Tx>) {
    forall k :: k in txs ==> TxOk(c, issued, txs[k])
  }

  ghost predicate AllViewsConsistent(c: Tables, txs: map<nat, Tx>) {
    forall k :: k in txs ==> Consistent(View(c, txs[k].delta))
  }

  ghost predicate Good(s: State) {
    && Consistent(s.committed)
    && IdsOf(s.committed) <= s.issued
    && AllTxOk(s.committed, s.issued, s.txs)
    && AllViewsConsistent(s.committed, s.txs)
    && Isolated(s.txs)
  }

  // ---------------------------------------------------------------- decisions

  lemma ReplacementOnTarget(m: Mutation, x: Uuid, rules: seq<Option<RuleInput>>)
    requires m.CreateFlag? || m.UpdateFlag?
    ensures forall i :: 0 <= i < |Replacement(x, rules)| ==>
      OnTarget(m, x, Replacement(x, rules)[i]) && !IsKeyWrite(Replacement(x, rules)[i])
  {
    var todo := Replacement(x, rules);
    forall i | 0 <= i < |todo|
      ensures OnTarget(m, x, todo[i]) && !IsKeyWrite(todo[i])
    {
      if i > 0 {
        assert todo[i] == InsertRule(RuleRows(x, rules)[i - 1]);
      }
    }
  }

  lemma NothingWrittenYet(c: Tables, e: Entity, x: Uuid)
    ensures Touches(c, NO_WRITES, e, x) && !RowWritten(NO_WRITES, e, x) && WrittenIds(NO_WRITES) == {}
  {
  }

  lemma DecideUpdateFlagOk(c: Tables, m: Mutation)
    requires m.UpdateFlag? && Decide(c, m).Success?
    ensures var plan := Decide(c, m).value;
      plan.OnRow? && Scheduled(m, NO_WRITES, plan.target, plan.todo) && Standing(c, m, NO_WRITES, plan.target)
  {
    var change := m.flagChange;
    var f := FindFlag(c.flags, change.key, EnvironmentOf(change)).value;
    var before := RulesTodo(f, change.rules);
    if change.rules.Some? {
      ReplacementOnTarget(m, f, change.rules.value);
    }
    var todo := Decide(c, m).value.todo;
    assert todo[..|before|] == before && |todo| == |before| + 1;
    assert todo[|before|] == Statement.UpdateFlag(f, EditedFlag(c.flags[f], change).value);
    forall i | 0 <= i < |todo|
      ensures OnTarget(m, f, todo[i]) && (i < |todo| - 1 ==> !IsKeyWrite(todo[i]))
    {
      if i < |before| {
        assert todo[i] == before[i];
      }
    }
  }

  /** What a decision starts: a parent insert, or a schedule on the row it found. */
  lemma DecideOk(c: Tables, issued: set<Uuid>, m: Mutation)
    requires IdsOf(c) <= issued && Decide(c, m).Success?
    ensures Decide(c, m).value.NewRow? ==> Opens(m, Decide(c, m).value.insert)
    ensures Decide(c, m).value.OnRow? ==>
      RunningOk(c, issued, m, NO_WRITES, Decide(c, m).value.target, Decide(c, m).value.todo)
  {
    var plan := Decide(c, m).value;
    if plan.OnRow? {
      NothingWrittenYet(c, EntityOf(m), plan.target);
      if m.UpdateFlag? {
        DecideUpdateFlagOk(c, m);
      }
    }
  }

  lemma ChildrenOnTarget(m: Mutation, x: Uuid)
    ensures forall i :: 0 <= i < |Children(m, x)| ==> OnTarget(m, x, Children(m, x)[i])
  {
    if m.CreateFlag? {
      ReplacementOnTarget(m, x, m.newFlag.rules);
    }
  }

  // ---------------------------------------------------------------- statements

  lemma OwnTodoAdvances(m: Mutation, d: Delta, d': Delta, x: Uuid, todo: seq<Statement>)
    requires Scheduled(m, d, x, todo) && todo != []
    requires IsKeyWrite(todo[0]) ==> Wrote(m, d', x)
    requires !IsKeyWrite(todo[0]) ==> d'.users == d.users && d'.flags == d.flags && d'.experiments == d.experiments
    ensures Scheduled(m, d', x, todo[1..])
  {
  }

  lemma RecordTouches(
    c: Tables, m: Mutation, d: Delta, x: Uuid, s: Statement, id: Uuid, missed: set<Uuid>)
    requires Touches(c, d, EntityOf(m), x) && OnTarget(m, x, s)
    requires Mints(s) ==> id !in IdsOf(c)
    ensures Touches(c, Record(c, d, s, id, missed), EntityOf(m), x)
  {
  }

  lemma RecordSchedules(
    c: Tables, m: Mutation, d: Delta, x: Uuid, todo: seq<Statement>, id: Uuid, missed: set<Uuid>)
    requires Scheduled(m, d, x, todo) && todo != []
    ensures Scheduled(m, Record(c, d, todo[0], id, missed), x, todo[1..])
  {
    var s := todo[0];
    assert OnTarget(m, x, s);
    OwnTodoAdvances(m, d, Record(c, d, s, id, missed), x, todo);
  }

  lemma RecordStands(
    c: Tables, m: Mutation, d: Delta, x: Uuid, s: Statement, id: Uuid, missed: set<Uuid>)
    requires Touches(c, d, EntityOf(m), x) && Standing(c, m, d, x) && OnTarget(m, x, s)
    requires Exec(View(c, d), s, id).Applied?
    requires IsKeyWrite(s) ==> !RowWritten(d, EntityOf(m), x)
    ensures Standing(c, m, Record(c, d, s, id, missed), x)
  {
  }

  lemma RecordIds(c: Tables, d: Delta, s: Statement, id: Uuid, missed: set<Uuid>)
    requires Exec(View(c, d), s, id).Applied?
    ensures WrittenIds(Record(c, d, s, id, missed)) <= WrittenIds(d) + IdsOf(c) + (if Mints(s) then {id} else {})
  {
    hide Exec, View, Record, IdsOf, Mints;
    forall x | x in WrittenIds(Record(c, d, s, id, missed))
      ensures x in WrittenIds(d) + IdsOf(c) + (if Mints(s) then {id} else {})
    {
      if Untouched(d, x) && x !in IdsOf(c) && (Mints(s) ==> x != id) {
        TouchesNothingNew(c, d, s, id, missed, x);
      }
    }
  }

  lemma RecordStaysOnTarget(
    c: Tables, issued: set<Uuid>, m: Mutation, d: Delta, x: Uuid, todo: seq<Statement>, id: Uuid, missed: set<Uuid>)
    requires IdsOf(c) <= issued
    requires RunningOk(c, issued, m, d, x, todo) && todo != []
    requires Mints(todo[0]) ==> id !in issued
    requires Exec(View(c, d), todo[0], id).Applied?
    ensures RunningOk(c, if Mints(todo[0]) then issued + {id} else issued, m,
                      Record(c, d, todo[0], id, missed), x, todo[1..])
  {
    RecordTouches(c, m, d, x, todo[0], id, missed);
    RecordSchedules(c, m, d, x, todo, id, missed);
    RecordStands(c, m, d, x, todo[0], id, missed);
    RecordIds(c, d, todo[0], id, missed);
  }

  lemma RecordOfParent(c: Tables, issued: set<Uuid>, m: Mutation, insert: Statement, id: Uuid)
    requires id !in issued && id !in IdsOf(c)
    requires Opens(m, insert)
    ensures RunningOk(c, issued + {id}, m, Record(c, NO_WRITES, insert, id, {}), id, Children(m, id))
  {
    hide Verdict, Children;
    ChildrenOnTarget(m, id);
  }

  lemma FewerRulesConsistent(t: Tables, t': Tables)
    requires Consistent(t)
    requires t' == t.(rules := t'.rules)
    requires forall r :: r in t'.rules ==> r in t.rules && t.rules[r] == t'.rules[r]
    ensures Consistent(t')
  {
  }

  /** Missing some rules in a delete leaves no constraint broken. */
  lemma MissingKeepsConsistent(c: Tables, d: Delta, f: Uuid, missed: set<Uuid>)
    requires Consistent(View(c, d))
    ensures Consistent(View(c, Record(c, d, DeleteRules(f), 0, missed)))
  {
    var ids := RuleIds(View(c, d).rules, f) - missed;
    CascadeErase(c.rules, d.rules, d.flags, ids);
    FewerRulesConsistent(View(c, d), View(c, Record(c, d, DeleteRules(f), 0, missed)));
  }

  lemma IdsOfView(c: Tables, d: Delta)
    ensures IdsOf(View(c, d)) <= IdsOf(c) + WrittenIds(d)
  {
  }

  lemma MintedUntouched(d: Delta, issued: set<Uuid>, s: Statement, id: Uuid)
    requires WrittenIds(d) <= issued && (Mints(s) ==> id !in issued)
    ensures Mints(s) ==> Untouched(d, id)
  {
  }

  lemma RecordWithoutMissing(c: Tables, d: Delta, s: Statement, id: Uuid, missed: set<Uuid>)
    requires !s.DeleteRules?
    ensures Record(c, d, s, id, missed) == Record(c, d, s, id, {})
  {
  }

  lemma RecordPlainKeepsConsistent(c: Tables, issued: set<Uuid>, d: Delta, s: Statement, id: Uuid)
    requires IdsOf(c) <= issued && WrittenIds(d) <= issued
    requires Mints(s) ==> id !in issued
    requires Consistent(View(c, d))
    requires Exec(View(c, d), s, id).Applied?
    ensures Consistent(View(c, Record(c, d, s, id, {})))
  {
    hide Consistent, View, Record, Exec;
    IdsOfView(c, d);
    MintedUntouched(d, issued, s, id);
    hide IdsOf, WrittenIds, Untouched;
    SeesOwnWrites(c, d, s, id);
    ExecKeepsConsistent(View(c, d), s, id);
  }

  lemma RecordKeepsConsistent(c: Tables, issued: set<Uuid>, d: Delta, s: Statement, id: Uuid, missed: set<Uuid>)
    requires IdsOf(c) <= issued && WrittenIds(d) <= issued
    requires Mints(s) ==> id !in issued
    requires Consistent(View(c, d))
    requires Exec(View(c, d), s, id).Applied?
    ensures Consistent(View(c, Record(c, d, s, id, missed)))
  {
    hide *;
    if s.DeleteRules? {
      MissingKeepsConsistent(c, d, s.flagId, missed);
      assert Record(c, d, s, id, missed) == Record(c, d, DeleteRules(s.flagId), 0, missed) by {
        RecordDeleteIgnoresId(c, d, s.flagId, id, missed);
      }
    } else {
      RecordPlainKeepsConsistent(c, issued, d, s, id);
      RecordWithoutMissing(c, d, s, id, missed);
    }
  }

  lemma RecordDeleteIgnoresId(c: Tables, d: Delta, f: Uuid, id: Uuid, missed: set<Uuid>)
    ensures Record(c, d, DeleteRules(f), id, missed) == Record(c, d, DeleteRules(f), 0, missed)
  {
  }

  lemma ApartWithRow<V, K>(d: map<Uuid, Option<V>>, o: map<Uuid, Option<V>>, key: V -> K, i: Uuid, v: V)
    requires ApartBy(d, o, key) && i !in o
    requires forall j :: j in o && o[j].Some? ==> key(o[j].value) != key(v)
    ensures ApartBy(d[i := Some(v)], o, key)
  {
  }

  lemma ApartWithoutRow<V, K>(d: map<Uuid, Option<V>>, o: map<Uuid, Option<V>>, key: V -> K, i: Uuid)
    requires ApartBy(d, o, key) && i !in o
    ensures ApartBy(d[i := None], o, key)
  {
  }

  lemma RulesApartWithFlag(d: Delta, o: Delta, f: Uuid, row: FlagRow)
    requires RulesApart(o, d)
    ensures RulesApart(o, d.(flags := d.flags[f := Some(row)]))
  {
  }

  lemma RulesApartWithoutFlag(d: Delta, o: Delta, f: Uuid)
    requires RulesApart(o, d) && !AddsRuleTo(o, f)
    ensures RulesApart(o, d.(flags := d.flags[f := None]))
  {
  }

  lemma RulesApartErased(c: Tables, d: Delta, o: Delta, f: Uuid, missed: set<Uuid>)
    requires RulesApart(d, o) && RulesApart(o, d)
    requires forall r :: r in o.rules && o.rules[r].Some? ==> r !in c.rules
    ensures RulesApart(Record(c, d, DeleteRules(f), 0, missed), o)
    ensures RulesApart(o, Record(c, d, DeleteRules(f), 0, missed))
  {
    var d' := Record(c, d, DeleteRules(f), 0, missed);
    assert forall r :: r in d'.rules ==> r in d.rules || r in c.rules;
  }

  lemma RulesApartInserted(d: Delta, o: Delta, r: Uuid, row: RuleRow)
    requires RulesApart(d, o) && RulesApart(o, d)
    requires r !in o.rules && !Deletes(o.flags, row.flag)
    ensures RulesApart(d.(rules := d.rules[r := Some(row)]), o)
    ensures RulesApart(o, d.(rules := d.rules[r := Some(row)]))
  {
  }

  /** A statement that no lock blocks keeps the transaction compatible with another one. */
  lemma RecordKeepsCompatible(
    c: Tables, issued: set<Uuid>, d: Delta, o: Delta, s: Statement, id: Uuid, missed: set<Uuid>)
    requires Compatible(d, o)
    requires !Conflicts(o, s)
    requires WrittenIds(o) <= issued && (Mints(s) ==> id !in issued)
    requires forall r :: r in o.rules && o.rules[r].Some? ==> r !in c.rules
    ensures Compatible(Record(c, d, s, id, missed), o)
  {
    match s
    case InsertUser(row) => ApartWithRow(d.users, o.users, EmailOf, id, row);
    case UpdateUser(u, row) => ApartWithRow(d.users, o.users, EmailOf, u, row);
    case DeleteUser(u) => ApartWithoutRow(d.users, o.users, EmailOf, u);
    case InsertFlag(row) =>
      ApartWithRow(d.flags, o.flags, FlagKeyOf, id, row);
      RulesApartWithFlag(d, o, id, row);
    case UpdateFlag(f, row) =>
      ApartWithRow(d.flags, o.flags, FlagKeyOf, f, row);
      RulesApartWithFlag(d, o, f, row);
    case DeleteFlag(f) =>
      ApartWithoutRow(d.flags, o.flags, FlagKeyOf, f);
      RulesApartWithoutFlag(d, o, f);
    case DeleteRules(f) => RulesApartErased(c, d, o, f, missed);
    case InsertRule(row) => RulesApartInserted(d, o, id, row);
    case InsertExperiment(row) => ApartWithRow(d.experiments, o.experiments, ExperimentKeyOf, id, row);
    case InsertVariant(row) =>
  }
}
