/**
 What each SQL statement of the stores does to the tables: the rows it changes, the
 constraint that rejects it, or that it hits no row. Cascades follow schema.go.
 */
module Statements {
  import opened Wrappers
  import opened Schema

  datatype SqlError = UniqueViolation | ForeignKeyViolation | CheckViolation | InvalidText | OutOfRange

  /** The writes of the flags, users and experiments stores. */
  datatype Statement =
    | InsertUser(user: UserRow)
    | UpdateUser(userId: Uuid, user: UserRow)
    | DeleteUser(userId: Uuid)
    | InsertFlag(flag: FlagRow)
    | UpdateFlag(flagId: Uuid, flag: FlagRow)
    | DeleteFlag(flagId: Uuid)
    | DeleteRules(flagId: Uuid)
    | InsertRule(rule: RuleRow)
    | InsertExperiment(experiment: ExperimentRow)
    | InsertVariant(variant: VariantRow)

  datatype Effect = Applied(tables: Tables) | NoRows | Rejected(reason: SqlError)

  /** Statements that generate the id of the row they insert. */
  predicate Mints(s: Statement) {
    s.InsertUser? || s.InsertFlag? || s.InsertRule? || s.InsertExperiment? || s.InsertVariant?
  }

  predicate EmailTaken(users: map<Uuid, UserRow>, email: string, except: set<Uuid>) {
    exists i | i in users :: i !in except && users[i].email == email
  }

  predicate FlagKeyTaken(flags: map<Uuid, FlagRow>, key: (string, string), except: set<Uuid>) {
    exists i | i in flags :: i !in except && FlagKeyOf(flags[i]) == key
  }

  predicate ExperimentKeyTaken(experiments: map<Uuid, ExperimentRow>, key: (string, string)) {
    exists i | i in experiments :: ExperimentKeyOf(experiments[i]) == key
  }

  /** One statement; id is the id it generates when it inserts a row. */
  function Exec(t: Tables, s: Statement, id: Uuid): Effect {
    match s
    case InsertUser(row) =>
      if row.role.UnknownRole? then Rejected(CheckViolation)
      else if EmailTaken(t.users, row.email, {}) then Rejected(UniqueViolation)
      else Applied(t.(users := t.users[id := row]))
    case UpdateUser(u, row) =>
      if u !in t.users then NoRows
      else if row.role.UnknownRole? then Rejected(CheckViolation)
      else if EmailTaken(t.users, row.email, {u}) then Rejected(UniqueViolation)
      else Applied(t.(users := t.users[u := row]))
    case DeleteUser(u) =>
      if u !in t.users then NoRows
      else Applied(t.(users := t.users - {u}, assignments := WithoutUser(t.assignments, u)))
    case InsertFlag(row) =>
      if FlagKeyTaken(t.flags, FlagKeyOf(row), {}) then Rejected(UniqueViolation)
      else Applied(t.(flags := t.flags[id := row]))
    case UpdateFlag(f, row) =>
      if f !in t.flags then NoRows
      else if FlagKeyTaken(t.flags, FlagKeyOf(row), {f}) then Rejected(UniqueViolation)
      else Applied(t.(flags := t.flags[f := row]))
    case DeleteFlag(f) =>
      if f !in t.flags then NoRows
      else Applied(t.(flags := t.flags - {f}, rules := t.rules - RuleIds(t.rules, f)))
    case DeleteRules(f) =>
      Applied(t.(rules := t.rules - RuleIds(t.rules, f)))
    case InsertRule(row) =>
      if row.kind.UntypedRule? then Rejected(CheckViolation)
      else if row.flag !in t.flags then Rejected(ForeignKeyViolation)
      else Applied(t.(rules := t.rules[id := row]))
    case InsertExperiment(row) =>
      if ExperimentKeyTaken(t.experiments, ExperimentKeyOf(row)) then Rejected(UniqueViolation)
      else Applied(t.(experiments := t.experiments[id := row]))
    case InsertVariant(row) =>
      if row.weight > MAX_INTEGER then Rejected(OutOfRange)
      else if row.weight < 0 then Rejected(CheckViolation)
      else if row.experiment !in t.experiments then Rejected(ForeignKeyViolation)
      else Applied(t.(variants := t.variants[id := row]))
  }

  function WithoutUser(assignments: map<(Uuid, Uuid), Uuid>, u: Uuid): map<(Uuid, Uuid), Uuid> {
    map a | a in assignments && a.0 != u :: assignments[a]
  }

  /** INSERT ... ON CONFLICT (user_id, experiment_id) DO UPDATE of the experiments store. */
  function Upsert(t: Tables, user: Uuid, experiment: Uuid, variant: Uuid): Result<Tables, SqlError> {
    if user !in t.users || experiment !in t.experiments then Failure(ForeignKeyViolation)
    else if variant !in t.variants || t.variants[variant].experiment != experiment then Failure(ForeignKeyViolation)
    else Success(t.(assignments := t.assignments[(user, experiment) := variant]))
  }

  /** The upsert as a caller writes it: user_id is a UUID column. */
  function UpsertText(t: Tables, user: IdText, experiment: Uuid, variant: Uuid): Result<Tables, SqlError> {
    match ParseUuid(user)
    case None => Failure(InvalidText)
    case Some(u) => Upsert(t, u, experiment, variant)
  }

  /** The INSERT of the audit store; actor_id is a UUID column. */
  function AppendAudit(
    t: Tables, entity: Entity, entityId: IdText, action: Action, actor: IdText): Result<Tables, SqlError>
  {
    match ParseUuid(actor)
    case None => Failure(InvalidText)
    case Some(a) => Success(t.(audit := t.audit + [AuditRow(entity, entityId, action, a)]))
  }

  /** Only an update or delete of one row can hit no row. */
  lemma NeverMisses(s: Statement)
    requires Mints(s) || s.DeleteRules?
    ensures forall t, id :: !Exec(t, s, id).NoRows?
  {
  }

  lemma UserStatementOk(t: Tables, s: Statement, id: Uuid)
    requires Consistent(t) && (s.InsertUser? || s.UpdateUser? || s.DeleteUser?)
    requires Mints(s) ==> id !in IdsOf(t)
    ensures Exec(t, s, id).Applied? ==> Consistent(Exec(t, s, id).tables)
  {
    assert UniqueBy(t.flags, FlagKeyOf) && UniqueBy(t.experiments, ExperimentKeyOf);
    hide RulesOk, VariantsOk, FlagKeyTaken, ExperimentKeyTaken;
  }

  lemma FlagStatementOk(t: Tables, s: Statement, id: Uuid)
    requires Consistent(t)
    requires s.InsertFlag? || s.UpdateFlag? || s.DeleteFlag? || s.DeleteRules? || s.InsertRule?
    requires Mints(s) ==> id !in IdsOf(t)
    ensures Exec(t, s, id).Applied? ==> Consistent(Exec(t, s, id).tables)
  {
    var after := Exec(t, s, id);
    assert after.Applied? ==> AssignmentsOk(after.tables);
    hide UsersOk, VariantsOk, AssignmentsOk, EmailTaken, ExperimentKeyTaken;
  }

  lemma ExperimentStatementOk(t: Tables, s: Statement, id: Uuid)
    requires Consistent(t) && (s.InsertExperiment? || s.InsertVariant?)
    requires Mints(s) ==> id !in IdsOf(t)
    ensures Exec(t, s, id).Applied? ==> Consistent(Exec(t, s, id).tables)
  {
    hide UsersOk, RulesOk, EmailTaken, FlagKeyTaken;
  }

  /** No statement breaks a constraint. */
  lemma ExecKeepsConsistent(t: Tables, s: Statement, id: Uuid)
    requires Consistent(t)
    requires Mints(s) ==> id !in IdsOf(t)
    ensures Exec(t, s, id).Applied? ==> Consistent(Exec(t, s, id).tables)
  {
    hide *;
    if s.InsertUser? || s.UpdateUser? || s.DeleteUser? {
      UserStatementOk(t, s, id);
    } else if s.InsertExperiment? || s.InsertVariant? {
      ExperimentStatementOk(t, s, id);
    } else {
      FlagStatementOk(t, s, id);
    }
  }

  lemma UpsertKeepsConsistent(t: Tables, user: Uuid, experiment: Uuid, variant: Uuid)
    requires Consistent(t)
    ensures Upsert(t, user, experiment, variant).Success? ==> Consistent(Upsert(t, user, experiment, variant).value)
  {
  }
}
