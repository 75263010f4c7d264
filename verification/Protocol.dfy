/**
 The seven audited mutations as plans of statements: what each one reads and decides,
 which statements it then runs, and the outcome when nothing interferes. The services
 (FlagServices, UserServices, ExperimentServices) carry out these plans; Interleaving lets
 their statements interleave.
 */
module Protocol {
  import opened Wrappers
  import opened Schema
  import opened Statements
  import opened Errors
  import opened Auth
  import opened FlagRules
  import opened Weights

  /** digest is what bcrypt answers for the password, None when hashing fails. */
  datatype CreateUserInput = CreateUserInput(
    email: string, role: Role, password: Option<string>, digest: Option<string>)

  datatype UpdateUserInput = UpdateUserInput(
    id: IdText, email: Option<string>, role: Option<Role>, password: Option<string>, digest: Option<string>)

  datatype CreateExperimentInput = CreateExperimentInput(
    key: string, environment: string, variants: seq<VariantInput>)

  datatype Mutation =
    | CreateFlag(newFlag: CreateFlagInput)
    | UpdateFlag(flagChange: UpdateFlagInput)
    | DeleteFlag(key: string, environment: string)
    | CreateUser(newUser: CreateUserInput)
    | UpdateUser(userChange: UpdateUserInput)
    | DeleteUser(userId: IdText)
    | CreateExperiment(newExperiment: CreateExperimentInput)

  datatype Answer =
    | FlagAnswer(id: Uuid, flag: FlagRow)
    | UserAnswer(id: Uuid, email: string, role: Role)
    | ExperimentAnswer(id: Uuid, experiment: ExperimentRow)
    | Deleted(done: bool)

  function EntityOf(m: Mutation): Entity {
    match m
    case CreateFlag(_) => FeatureFlag
    case UpdateFlag(_) => FeatureFlag
    case DeleteFlag(_, _) => FeatureFlag
    case CreateExperiment(_) => Experiment
    case _ => User
  }

  function ActionOf(m: Mutation): Action {
    match m
    case UpdateFlag(_) => Update
    case UpdateUser(_) => Update
    case DeleteFlag(_, _) => Delete
    case DeleteUser(_) => Delete
    case _ => Create
  }

  /** The roles the resolver of a mutation lets through. */
  function AllowedRoles(m: Mutation): seq<Role> {
    if EntityOf(m) == User then [Admin] else [Admin, Developer]
  }

  /** The role gate of the resolvers and the actor check of PrepareWriteTx. */
  function Admit(m: Mutation, claims: Option<Claims>): Result<IdText, Error> {
    var ctx := Context(claims, None);
    match RequireRole(ctx, AllowedRoles(m))
    case Failure(e) => Failure(e)
    case Success(sub) =>
      match ActorIdFromContext(WithActorId(ctx, sub))
      case None => Failure(MissingActor)
      case Some(actor) => Success(actor)
  }

  /** The entity id of the audit entry: DeleteUser logs the text the client sent. */
  function LoggedId(m: Mutation, target: Uuid): IdText {
    if m.DeleteUser? then m.userId else Canonical(target)
  }

  /** A decision: insert a new row, or run statements on the row that was found. */
  datatype Plan = NewRow(insert: Statement) | OnRow(target: Uuid, todo: seq<Statement>)

  function EnvironmentOf(change: UpdateFlagInput): string {
    match change.environment
    case Some(e) => if e != "" then e else DEV
    case None => DEV
  }

  function InsertsOf(rows: seq<RuleRow>): (todo: seq<Statement>)
    ensures |todo| == |rows|
    ensures forall i :: 0 <= i < |rows| ==> todo[i] == InsertRule(rows[i])
  {
    seq(|rows|, i requires 0 <= i < |rows| => InsertRule(rows[i]))
  }

  /** The rows a replacement inserts: all of them for the flag it is called with. */
  function ForFlag(flag: Uuid, rows: seq<RuleRow>): (owned: seq<RuleRow>)
    ensures |owned| == |rows|
    ensures forall i :: 0 <= i < |rows| ==> owned[i] == rows[i].(flag := flag)
    ensures (forall i :: 0 <= i < |rows| ==> rows[i].flag == flag) ==> owned == rows
  {
    seq(|rows|, i requires 0 <= i < |rows| => rows[i].(flag := flag))
  }

  /** ReplaceRulesByFlagID inside a transaction. */
  function Replacement(flag: Uuid, rules: seq<Option<RuleInput>>): seq<Statement> {
    [DeleteRules(flag)] + InsertsOf(RuleRows(flag, rules))
  }

  function VariantInserts(experiment: Uuid, variants: seq<VariantInput>): (todo: seq<Statement>)
    ensures |todo| == |variants|
    ensures forall i :: 0 <= i < |variants| ==>
      todo[i] == InsertVariant(VariantRow(experiment, variants[i].name, variants[i].weight))
  {
    seq(|variants|, i requires 0 <= i < |variants| =>
      InsertVariant(VariantRow(experiment, variants[i].name, variants[i].weight)))
  }

  /** Statements that follow the insert of a new parent row. */
  function Children(m: Mutation, id: Uuid): seq<Statement> {
    match m
    case CreateFlag(input) => if |input.rules| == 0 then [] else Replacement(id, input.rules)
    case CreateExperiment(input) => VariantInserts(id, input.variants)
    case _ => []
  }

  function WithPassword(row: UserRow, password: Option<string>, digest: Option<string>): Result<UserRow, Error> {
    if password == None || password == Some("") then Success(row)
    else if digest == None then Failure(Operation(HashingFailed))
    else Success(row.(passwordHash := digest))
  }

  function EditedUser(row: UserRow, change: UpdateUserInput): Result<UserRow, Error> {
    var email := if change.email.Some? then change.email.value else row.email;
    var role := if change.role.Some? then change.role.value else row.role;
    WithPassword(row.(email := email, role := role), change.password, change.digest)
  }

  function EditedFlag(row: FlagRow, change: UpdateFlagInput): Result<FlagRow, Error> {
    match ResolveStrategyForUpdate(row.strategy, change.rules)
    case Failure(e) => Failure(e)
    case Success(strategy) => Success(row.(enabled := change.enabled, strategy := strategy))
  }

  function RulesTodo(flag: Uuid, rules: Option<seq<Option<RuleInput>>>): seq<Statement> {
    match rules
    case None => []
    case Some(list) => Replacement(flag, list)
  }

  /** The reads and checks a mutation makes before its first write. */
  function Decide(t: Tables, m: Mutation): Result<Plan, Error> {
    match m
    case CreateFlag(input) =>
      if FindFlag(t.flags, input.key, input.environment).Some? then
        Failure(DuplicateKey(input.key, input.environment))
      else (
        match ResolveStrategyForCreate(input)
        case Failure(e) => Failure(e)
        case Success(s) =>
          Success(NewRow(InsertFlag(FlagRow(input.key, input.description, false, input.environment, s)))))
    case UpdateFlag(change) => (
      var environment := EnvironmentOf(change);
      match FindFlag(t.flags, change.key, environment)
      case None => Failure(FlagNotFound(change.key, environment))
      case Some(f) => (
        match EditedFlag(t.flags[f], change)
        case Failure(e) => Failure(e)
        case Success(row) =>
          Success(OnRow(f, RulesTodo(f, change.rules) + [Statement.UpdateFlag(f, row)]))))
    case DeleteFlag(key, environment) => (
      match FindFlag(t.flags, key, environment)
      case None => Failure(FlagNotFound(key, environment))
      case Some(f) => Success(OnRow(f, [Statement.DeleteFlag(f)])))
    case CreateUser(input) =>
      if FindEmail(t.users, input.email).Some? then Failure(DuplicateEmail(input.email))
      else (
        match WithPassword(UserRow(input.email, input.role, None), input.password, input.digest)
        case Failure(e) => Failure(e)
        case Success(row) => Success(NewRow(InsertUser(row))))
    case UpdateUser(change) => (
      match ParseUuid(change.id)
      case None => Failure(BadText())
      case Some(u) =>
        if u !in t.users then Failure(UserNotFound(change.id))
        else (
          match EditedUser(t.users[u], change)
          case Failure(e) => Failure(e)
          case Success(row) => Success(OnRow(u, [Statement.UpdateUser(u, row)]))))
    case DeleteUser(id) => (
      match ParseUuid(id)
      case None => Failure(BadText())
      case Some(u) => Success(OnRow(u, [Statement.DeleteUser(u)])))
    case CreateExperiment(input) => (
      match Verdict(WeightsOf(input.variants))
      case Failure(e) => Failure(e)
      case Success(_) =>
        if FindExperiment(t.experiments, input.key, input.environment).Some? then
          Failure(DuplicateExperiment(input.key, input.environment))
        else
          Success(NewRow(InsertExperiment(ExperimentRow(input.key, input.environment)))))
  }

  /** A store error for an id text the database cannot read, as the service wraps it. */
  function BadText(): Error {
    Operation(Operation(DatabaseError(InvalidText)))
  }

  /** The store's error for a rejected statement. */
  function StoreError(s: Statement, reason: SqlError): Error {
    if reason == UniqueViolation && s.InsertFlag? then DuplicateKey(s.flag.key, s.flag.environment)
    else if reason == UniqueViolation && s.InsertUser? then DuplicateEmail(s.user.email)
    else if reason == UniqueViolation && s.InsertExperiment? then
      DuplicateExperiment(s.experiment.key, s.experiment.environment)
    else Operation(DatabaseError(reason))
  }

  /** The store's error for an update or delete that hits no row. */
  function MissingError(s: Statement): Error {
    match s
    case UpdateFlag(f, _) => FlagIdNotFound(f)
    case DeleteFlag(f) => FlagIdNotFound(f)
    case UpdateUser(u, _) => UserNotFound(Canonical(u))
    case DeleteUser(u) => UserNotFound(Canonical(u))
    case _ => Operation(DatabaseError(InvalidText))
  }

  predicate IsUserNotFound(e: Error) {
    e.UserNotFound? || (e.Operation? && IsUserNotFound(e.cause))
  }

  lemma {:induction false} NotFoundIsRoot(e: Error)
    ensures IsUserNotFound(e) <==> Root(e).UserNotFound?
  {
    if e.Operation? {
      NotFoundIsRoot(e.cause);
    }
  }

  /** Statements one after another; ids(n), ids(n + 1), ... are the ids the database generates. */
  function RunTodo(t: Tables, todo: seq<Statement>, ids: nat -> Uuid, n: nat): Result<Tables, Error>
    decreases |todo|
  {
    if todo == [] then Success(t)
    else
      match Exec(t, todo[0], ids(n))
      case Applied(t') => RunTodo(t', todo[1..], ids, if Mints(todo[0]) then n + 1 else n)
      case NoRows => Failure(Operation(MissingError(todo[0])))
      case Rejected(reason) => Failure(Operation(StoreError(todo[0], reason)))
  }

  lemma ExecKeepsAudit(t: Tables, s: Statement, id: Uuid)
    ensures var effect := Exec(t, s, id); effect.Applied? ==> effect.tables.audit == t.audit
  {
  }

  lemma {:induction false} InsertsFit(t: Tables, f: Uuid, rows: seq<RuleRow>, ids: nat -> Uuid, n: nat)
    requires f in t.flags
    requires forall i :: 0 <= i < |rows| ==> rows[i].flag == f && !rows[i].kind.UntypedRule?
    ensures RunTodo(t, InsertsOf(rows), ids, n).Success?
    decreases |rows|
  {
    if rows != [] {
      var todo := InsertsOf(rows);
      assert todo[0] == InsertRule(rows[0]) && todo[1..] == InsertsOf(rows[1..]);
      InsertsFit(t.(rules := t.rules[ids(n) := rows[0]]), f, rows[1..], ids, n + 1);
    }
  }

  /** The schema never refuses the rules the service makes for an existing flag. */
  lemma ReplacementFits(t: Tables, f: Uuid, rules: seq<Option<RuleInput>>, ids: nat -> Uuid, n: nat)
    requires f in t.flags
    ensures RunTodo(t, Replacement(f, rules), ids, n).Success?
  {
    var todo := Replacement(f, rules);
    assert todo[0] == DeleteRules(f) && todo[1..] == InsertsOf(RuleRows(f, rules));
    InsertsFit(t.(rules := t.rules - RuleIds(t.rules, f)), f, RuleRows(f, rules), ids, n);
  }

  /** The statements of a plan write no audit row. */
  lemma {:induction false} TodoKeepsAudit(t: Tables, todo: seq<Statement>, ids: nat -> Uuid, n: nat)
    ensures var r := RunTodo(t, todo, ids, n); r.Success? ==> r.value.audit == t.audit
    decreases |todo|
  {
    if todo != [] {
      var effect := Exec(t, todo[0], ids(n));
      ExecKeepsAudit(t, todo[0], ids(n));
      if effect.Applied? {
        TodoKeepsAudit(effect.tables, todo[1..], ids, if Mints(todo[0]) then n + 1 else n);
      }
    }
  }

  /** A last statement that generates no id runs on what the others leave. */
  lemma {:induction false} RunThenLast(
    t: Tables, todo: seq<Statement>, last: Statement, ids: nat -> Uuid, n: nat, id: Uuid)
    requires !Mints(last)
    ensures RunTodo(t, todo + [last], ids, n) == (
      match RunTodo(t, todo, ids, n)
      case Failure(e) => Failure(e)
      case Success(t') =>
        match Exec(t', last, id)
        case Applied(t'') => Success(t'')
        case NoRows => Failure(Operation(MissingError(last)))
        case Rejected(reason) => Failure(Operation(StoreError(last, reason))))
    decreases |todo|
  {
    if todo == [] {
      assert ([last])[1..] == [];
      assert Exec(t, last, ids(n)) == Exec(t, last, id);
      assert todo + [last] == [last];
    } else {
      var n' := if Mints(todo[0]) then n + 1 else n;
      assert (todo + [last])[0] == todo[0] && (todo + [last])[1..] == todo[1..] + [last];
      var effect := Exec(t, todo[0], ids(n));
      hide Exec;
      if effect.Applied? {
        RunThenLast(effect.tables, todo[1..], last, ids, n', id);
      }
    }
  }

  /** Statements about rules and variants leave every flag, user and experiment as it was. */
  lemma {:induction false} ChildrenKeepParents(t: Tables, todo: seq<Statement>, ids: nat -> Uuid, n: nat)
    requires forall i :: 0 <= i < |todo| ==> todo[i].DeleteRules? || todo[i].InsertRule? || todo[i].InsertVariant?
    ensures var r := RunTodo(t, todo, ids, n); r.Success? ==>
      r.value.flags == t.flags && r.value.users == t.users && r.value.experiments == t.experiments
    decreases |todo|
  {
    if todo != [] {
      var effect := Exec(t, todo[0], ids(n));
      if effect.Applied? {
        ChildrenKeepParents(effect.tables, todo[1..], ids, if Mints(todo[0]) then n + 1 else n);
      }
    }
  }

  /** The row a plan works on when it is run with ids from n. */
  function PlanTarget(plan: Plan, ids: nat -> Uuid, n: nat): Uuid {
    match plan
    case NewRow(_) => ids(n)
    case OnRow(target, _) => target
  }

  function RunPlan(t: Tables, m: Mutation, plan: Plan, ids: nat -> Uuid, n: nat): Result<Tables, Error> {
    match plan
    case NewRow(insert) => (
      match Exec(t, insert, ids(n))
      case Applied(t') => RunTodo(t', Children(m, ids(n)), ids, n + 1)
      case NoRows => Failure(Operation(MissingError(insert)))
      case Rejected(reason) => Failure(Operation(StoreError(insert, reason))))
    case OnRow(_, todo) => RunTodo(t, todo, ids, n)
  }

  datatype Outcome = Committed(tables: Tables, answer: Answer) | NothingDeleted | Refused(error: Error)

  /** What a committed mutation answers: the row as it now is. */
  function AnswerOf(t: Tables, m: Mutation, target: Uuid): Answer {
    match ActionOf(m)
    case Delete => Deleted(true)
    case _ =>
      if target in t.flags && EntityOf(m) == FeatureFlag then FlagAnswer(target, t.flags[target])
      else if target in t.users && EntityOf(m) == User then
        UserAnswer(target, t.users[target].email, t.users[target].role)
      else if target in t.experiments && EntityOf(m) == Experiment then
        ExperimentAnswer(target, t.experiments[target])
      else Deleted(false)
  }

  /** The writes of one mutation before its audit row, and the row it worked on. */
  function Work(t: Tables, m: Mutation, ids: nat -> Uuid, n: nat): Result<(Tables, Uuid), Error> {
    match Decide(t, m)
    case Failure(e) => Failure(e)
    case Success(plan) =>
      match RunPlan(t, m, plan, ids, n)
      case Failure(e) => Failure(e)
      case Success(t') => Success((t', PlanTarget(plan, ids, n)))
  }

  /**
   What a flag mutation outside any transaction leaves when it fails between its writes: a
   new flag without its rules, or new rules under the old flag row.
   */
  function Halfway(t: Tables, m: Mutation, ids: nat -> Uuid, n: nat): Tables {
    match Decide(t, m)
    case Failure(_) => t
    case Success(NewRow(insert)) => (
      match Exec(t, insert, ids(n))
      case Applied(t') => t'
      case _ => t)
    case Success(OnRow(_, todo)) =>
      if todo == [] then t
      else
        match RunTodo(t, todo[..|todo| - 1], ids, n)
        case Success(t') => t'
        case Failure(_) => t
  }

  /** Tables after the first k statements of a create that runs outside any transaction. */
  function Begun(t: Tables, m: Mutation, ids: nat -> Uuid, n: nat, k: nat): Tables {
    match Decide(t, m)
    case Success(NewRow(insert)) =>
      if k == 0 || !Exec(t, insert, ids(n)).Applied? then t
      else
        var t', todo := Exec(t, insert, ids(n)).tables, Children(m, ids(n));
        if k > |todo| + 1 then t'
        else
          var r := RunTodo(t', todo[..k - 1], ids, n + 1);
          if r.Success? then r.value else t'
    case _ => t
  }

  lemma BegunNothing(t: Tables, m: Mutation, ids: nat -> Uuid, n: nat)
    ensures Begun(t, m, ids, n, 0) == t
  {
    hide Decide, Exec, Children;
  }

  lemma RunMintHead(t: Tables, todo: seq<Statement>, ids: nat -> Uuid, n: nat)
    requires todo != [] && Mints(todo[0])
    ensures RunTodo(t, todo, ids, n) == (
      match Exec(t, todo[0], ids(n))
      case Applied(t') => RunTodo(t', todo[1..], ids, n + 1)
      case NoRows => Failure(Operation(MissingError(todo[0])))
      case Rejected(reason) => Failure(Operation(StoreError(todo[0], reason))))
  {
    hide Exec;
  }

  /** One more statement after others that all generated ids. */
  lemma {:induction false} RunMintSnoc(t: Tables, todo: seq<Statement>, s: Statement, ids: nat -> Uuid, n: nat)
    requires forall i :: 0 <= i < |todo| ==> Mints(todo[i])
    requires RunTodo(t, todo, ids, n).Success?
    ensures var t' := RunTodo(t, todo, ids, n).value; var effect := Exec(t', s, ids(n + |todo|));
      effect.Applied? ==> RunTodo(t, todo + [s], ids, n) == Success(effect.tables)
    decreases |todo|
  {
    hide Exec;
    if todo == [] {
      assert [] + [s] == [s] && [s][1..] == [];
    } else {
      assert (todo + [s])[0] == todo[0] && (todo + [s])[1..] == todo[1..] + [s];
      RunMintSnoc(Exec(t, todo[0], ids(n)).tables, todo[1..], s, ids, n + 1);
    }
  }

  /** Calls to the database that replacing the rules takes outside any transaction: begin, delete, inserts, commit. */
  function CallsToReplace(rules: seq<Option<RuleInput>>): nat {
    3 + |RuleRows(0, rules)|
  }

  function CallsToApply(rules: Option<seq<Option<RuleInput>>>): nat {
    if rules.Some? then CallsToReplace(rules.value) else 0
  }

  /** Calls that a flag mutation outside any transaction makes up to the end of its first write. */
  function CallsToHalfway(m: Mutation): nat {
    match m
    case CreateFlag(_) => 2
    case UpdateFlag(change) => 1 + CallsToApply(change.rules)
    case _ => 0
  }

  /** Calls that it makes when it is carried out. */
  function CallsInAll(m: Mutation): nat {
    match m
    case CreateFlag(input) => 2 + if input.rules == [] then 0 else CallsToReplace(input.rules)
    case UpdateFlag(_) => CallsToHalfway(m) + 1
    case _ => 0
  }

  lemma {:induction false} SameCountForAnyFlag(f: Uuid, rules: seq<Option<RuleInput>>)
    ensures |RuleRows(f, rules)| == |RuleRows(0, rules)|
  {
    if rules != [] {
      SameCountForAnyFlag(f, rules[..|rules| - 1]);
    }
  }

  /** One mutation run alone in one transaction, audit row included. */
  function Serial(t: Tables, m: Mutation, actor: IdText, ids: nat -> Uuid, n: nat): Outcome {
    match Work(t, m, ids, n)
    case Failure(e) => if m.DeleteUser? && IsUserNotFound(e) then NothingDeleted else Refused(e)
    case Success((t', target)) =>
      match AppendAudit(t', EntityOf(m), LoggedId(m, target), ActionOf(m), actor)
      case Success(t'') => Committed(t'', AnswerOf(t', m, target))
      case Failure(reason) => Refused(Operation(Operation(DatabaseError(reason))))
  }

  predicate LiveIn(c: Tables, e: Entity, x: Uuid) {
    match e
    case User => x in c.users
    case FeatureFlag => x in c.flags
    case Experiment => x in c.experiments
  }

  lemma ChildrenKinds(m: Mutation, id: Uuid)
    ensures forall i :: 0 <= i < |Children(m, id)| ==>
      var s := Children(m, id)[i]; s.DeleteRules? || s.InsertRule? || s.InsertVariant?
  {
  }

  lemma OneStatementRuns(t: Tables, s: Statement, ids: nat -> Uuid, n: nat)
    ensures RunTodo(t, [s], ids, n).Success? ==>
      Exec(t, s, ids(n)) == Applied(RunTodo(t, [s], ids, n).value)
  {
    assert [s][1..] == [];
    hide Exec;
  }

  lemma UpdateTarget(t: Tables, change: UpdateFlagInput, ids: nat -> Uuid, n: nat)
    ensures match Work(t, Mutation.UpdateFlag(change), ids, n)
      case Success((t', x)) => x in t'.flags
      case Failure(_) => true
  {
    var found := FindFlag(t.flags, change.key, EnvironmentOf(change));
    if found.Some? && EditedFlag(t.flags[found.value], change).Success? {
      var row := EditedFlag(t.flags[found.value], change).value;
      hide FindFlag, EditedFlag, RulesTodo;
      RunThenLast(t, RulesTodo(found.value, change.rules), Statement.UpdateFlag(found.value, row), ids, n, 0);
    }
  }

  /** The row a mutation worked on: found under its key, or there when it is done. */
  lemma WorkTarget(t: Tables, m: Mutation, ids: nat -> Uuid, n: nat)
    ensures match Work(t, m, ids, n)
      case Success((t', x)) =>
        && (ActionOf(m) != Delete ==> LiveIn(t', EntityOf(m), x))
        && (m.DeleteFlag? ==> FindFlag(t.flags, m.key, m.environment) == Some(x))
      case Failure(_) => true
  {
    hide FindFlag, FindEmail, FindExperiment, Children, ResolveStrategyForCreate, Verdict, RunTodo;
    if m.UpdateFlag? {
      UpdateTarget(t, m.flagChange, ids, n);
    } else if Decide(t, m).Success? && Decide(t, m).value.NewRow? {
      var effect := Exec(t, Decide(t, m).value.insert, ids(n));
      if effect.Applied? {
        ChildrenKinds(m, ids(n));
        ChildrenKeepParents(effect.tables, Children(m, ids(n)), ids, n + 1);
      }
    } else if Decide(t, m).Success? {
      OneStatementRuns(t, Decide(t, m).value.todo[0], ids, n);
    }
  }

  /** The id text an audit row must carry, by what the mutation was told to do and what it answered. */
  function IdDue(t: Tables, m: Mutation, answer: Answer): IdText {
    match m
    case DeleteUser(id) => id
    case DeleteFlag(key, environment) => (
      match FindFlag(t.flags, key, environment)
      case Some(f) => Canonical(f)
      case None => EMPTY_ID)
    case _ => if answer.Deleted? then EMPTY_ID else Canonical(answer.id)
  }

  /** The audit row that is due for a mutation that was carried out on these tables. */
  function RowDue(t: Tables, m: Mutation, answer: Answer, actor: Uuid): AuditRow {
    AuditRow(EntityOf(m), IdDue(t, m, answer), ActionOf(m), actor)
  }

  lemma WorkKeepsAudit(t: Tables, m: Mutation, ids: nat -> Uuid, n: nat)
    ensures Work(t, m, ids, n).Success? ==> Work(t, m, ids, n).value.0.audit == t.audit
  {
    hide Decide, Exec, Children;
    match Decide(t, m)
    case Failure(_) =>
    case Success(OnRow(x, todo)) =>
      TodoKeepsAudit(t, todo, ids, n);
    case Success(NewRow(insert)) =>
      ExecKeepsAudit(t, insert, ids(n));
      if Exec(t, insert, ids(n)).Applied? {
        TodoKeepsAudit(Exec(t, insert, ids(n)).tables, Children(m, ids(n)), ids, n + 1);
      }
  }

  /** A committed mutation appends one audit row: its entity, the id it answers, its action, its actor. */
  lemma SerialLogsOnce(t: Tables, m: Mutation, actor: IdText, ids: nat -> Uuid, n: nat)
    ensures match Serial(t, m, actor, ids, n)
      case Committed(t', answer) =>
        && (m.DeleteUser? ==> answer == Deleted(true))
        && ParseUuid(actor).Some?
        && t'.audit == t.audit + [RowDue(t, m, answer, ParseUuid(actor).value)]
      case NothingDeleted => m.DeleteUser?
      case Refused(_) => true
  {
    WorkKeepsAudit(t, m, ids, n);
    WorkTarget(t, m, ids, n);
    hide Work, FindFlag;
  }

  /** One getAssignment call run alone: the tables it leaves and the variant it answers. */
  function Serve(
    t: Tables, hash: Hash, user: IdText, key: string, environment: string): Result<(Tables, Variant), Error>
  {
    if user == EMPTY_ID then Failure(InvalidUserId)
    else
      match FindExperiment(t.experiments, key, environment)
      case None => Failure(ExperimentNotFound(key, environment))
      case Some(e) =>
        var list := VariantsOf(t.variants, e);
        if list == [] then Failure(NoVariantsFound(key, environment))
        else
          match ParseUuid(user)
          case None => Failure(BadText())
          case Some(u) =>
            if (u, e) in t.assignments then
              match VariantIndex(list, t.assignments[(u, e)])
              case None => Failure(UnknownVariant(t.assignments[(u, e)]))
              case Some(i) => Success((t, list[i]))
            else
              var v := Assigned(hash, user, e, list);
              match Upsert(t, u, e, v.id)
              case Failure(reason) => Failure(Operation(Operation(DatabaseError(reason))))
              case Success(t') => Success((t', v))
  }
}
