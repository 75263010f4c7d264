/**
 The running service: any number of mutations, each in its own transaction, and of
 getAssignment calls, which use none. Every statement of every participant is one step;
 steps interleave freely, any statement can fail, and a transaction is delayed only by row
 locks and unique keys that another open transaction holds.
 */
module Interleaving {
  import opened Wrappers
  import opened Schema
  import opened Statements
  import opened Errors
  import opened Auth
  import opened Weights
  import opened Protocol
  import opened Transactions

  datatype Phase =
    | Opened
    | Inserting(insert: Statement)
    | Running(target: Uuid, todo: seq<Statement>)
    | Logged(target: Uuid)
    | Finished(target: Uuid)
    | NothingThere
    | Failed(error: Error)

  /** news: rules that other transactions committed since this one made its decision. */
  datatype Tx = Tx(
    mutation: Mutation, claims: Option<Claims>, actor: IdText,
    delta: Delta, phase: Phase, news: set<Uuid>)

  datatype Stage =
    | Asked
    | HasExperiment(experiment: Uuid)
    | HasVariants(experiment: Uuid, variants: seq<Variant>)
    | Unassigned(experiment: Uuid, variant: Variant)
    | Answered(experiment: Uuid, variant: Variant)
    | Rejected(error: Error)

  /** A getAssignment call. */
  datatype Call = Call(user: IdText, key: string, environment: string, stage: Stage)

  /**
   order lists the committed transactions in commit order. settled remembers the first
   variant ever stored for a user and experiment, also after the row is gone.
   */
  datatype State = State(
    hash: Hash,
    committed: Tables,
    txs: map<nat, Tx>,
    calls: map<nat, Call>,
    issued: set<Uuid>,
    order: seq<nat>,
    settled: map<(Uuid, Uuid), Uuid>)

  datatype Step =
    | Open(k: nat, mutation: Mutation, claims: Option<Claims>)
    | Read(k: nat)
    | Execute(k: nat, id: Uuid, missed: set<Uuid>)
    | Log(k: nat)
    | Commit(k: nat)
    | Fault(k: nat)
    | Ask(call: nat, user: IdText, key: string, environment: string)
    | LoadExperiment(call: nat)
    | LoadVariants(call: nat)
    | LoadAssignment(call: nat)
    | Store(call: nat)
    | CallFault(call: nat)

  predicate Ended(p: Phase) {
    p.Finished? || p.NothingThere? || p.Failed?
  }

  predicate Waiting(tx: Tx) {
    tx.phase.Inserting? || (tx.phase.Running? && tx.phase.todo != [])
  }

  function NextStatement(tx: Tx): Statement
    requires Waiting(tx)
  {
    if tx.phase.Inserting? then tx.phase.insert else tx.phase.todo[0]
  }

  predicate ClaimsEmail(d: Delta, email: string, except: set<Uuid>) {
    exists i | i in d.users :: i !in except && d.users[i].Some? && d.users[i].value.email == email
  }

  predicate ClaimsFlagKey(d: Delta, key: (string, string), except: set<Uuid>) {
    exists i | i in d.flags :: i !in except && d.flags[i].Some? && FlagKeyOf(d.flags[i].value) == key
  }

  predicate ClaimsExperimentKey(d: Delta, key: (string, string)) {
    exists i | i in d.experiments :: d.experiments[i].Some? && ExperimentKeyOf(d.experiments[i].value) == key
  }

  predicate AddsRuleTo(d: Delta, flag: Uuid) {
    exists r | r in d.rules :: d.rules[r].Some? && d.rules[r].value.flag == flag
  }

  /** A statement waits while another transaction's writes hold what it needs. */
  predicate Conflicts(d: Delta, s: Statement) {
    match s
    case InsertUser(row) => ClaimsEmail(d, row.email, {})
    case UpdateUser(u, row) => u in d.users || ClaimsEmail(d, row.email, {u})
    case DeleteUser(u) => u in d.users
    case InsertFlag(row) => ClaimsFlagKey(d, FlagKeyOf(row), {})
    case UpdateFlag(f, row) => f in d.flags || ClaimsFlagKey(d, FlagKeyOf(row), {f})
    case DeleteFlag(f) => f in d.flags || AddsRuleTo(d, f)
    case DeleteRules(_) => false
    case InsertRule(row) => Deletes(d.flags, row.flag)
    case InsertExperiment(row) => ClaimsExperimentKey(d, ExperimentKeyOf(row))
    case InsertVariant(_) => false
  }

  /** The transaction has deleted committed rules of the flag, itself or by a cascade. */
  predicate DeletedRulesOf(c: Tables, d: Delta, flag: Uuid) {
    exists r | r in c.rules :: c.rules[r].flag == flag && (Deletes(d.rules, r) || Deletes(d.flags, flag))
  }

  /** A delete also waits for the rows it is to delete, the cascaded ones included. */
  predicate HoldsUp(c: Tables, d: Delta, s: Statement) {
    || Conflicts(d, s)
    || ((s.DeleteRules? || s.DeleteFlag?) && DeletedRulesOf(c, d, s.flagId))
  }

  predicate Blocked(s: State, k: nat, stmt: Statement) {
    exists j | j in s.txs :: j != k && HoldsUp(s.committed, s.txs[j].delta, stmt)
  }

  predicate Enabled(s: State, step: Step) {
    match step
    case Open(k, _, _) => k !in s.txs
    case Read(k) => k in s.txs && s.txs[k].phase.Opened?
    case Execute(k, id, missed) =>
      && k in s.txs
      && Waiting(s.txs[k])
      && !Blocked(s, k, NextStatement(s.txs[k]))
      && (Mints(NextStatement(s.txs[k])) ==> id !in s.issued)
      && missed <= s.txs[k].news
    case Log(k) => k in s.txs && s.txs[k].phase.Running? && s.txs[k].phase.todo == []
    case Commit(k) => k in s.txs && s.txs[k].phase.Logged?
    case Fault(k) => k in s.txs && !Ended(s.txs[k].phase)
    case Ask(n, _, _, _) => n !in s.calls
    case LoadExperiment(n) => n in s.calls && s.calls[n].stage.Asked?
    case LoadVariants(n) => n in s.calls && s.calls[n].stage.HasExperiment?
    case LoadAssignment(n) => n in s.calls && s.calls[n].stage.HasVariants? && s.calls[n].stage.variants != []
    case Store(n) => n in s.calls && s.calls[n].stage.Unassigned?
    case CallFault(n) => n in s.calls && !s.calls[n].stage.Answered? && !s.calls[n].stage.Rejected?
  }

  /** The deferred rollback: nothing of the transaction remains. */
  function RolledBack(tx: Tx, phase: Phase): Tx {
    tx.(delta := NO_WRITES, phase := phase)
  }

  function AfterRead(s: State, tx: Tx): Tx {
    match Decide(s.committed, tx.mutation)
    case Failure(e) => RolledBack(tx, Failed(e))
    case Success(plan) =>
      match plan
      case NewRow(insert) => tx.(phase := Inserting(insert), news := {})
      case OnRow(target, todo) => tx.(phase := Running(target, todo), news := {})
  }

  function Proceed(tx: Tx, id: Uuid): Phase
    requires Waiting(tx)
  {
    match tx.phase
    case Inserting(_) => Running(id, Children(tx.mutation, id))
    case Running(target, todo) => Running(target, todo[1..])
  }

  function AfterStatement(c: Tables, tx: Tx, id: Uuid, missed: set<Uuid>): Tx
    requires Waiting(tx)
  {
    var stmt := NextStatement(tx);
    match Exec(View(c, tx.delta), stmt, id)
    case Applied(_) => tx.(delta := Record(c, tx.delta, stmt, id, missed), phase := Proceed(tx, id))
    case NoRows =>
      if tx.mutation.DeleteUser? then RolledBack(tx, NothingThere)
      else RolledBack(tx, Failed(Operation(MissingError(stmt))))
    case Rejected(reason) => RolledBack(tx, Failed(Operation(StoreError(stmt, reason))))
  }

  function AfterLog(tx: Tx, target: Uuid): Tx {
    match ParseUuid(tx.actor)
    case None => RolledBack(tx, Failed(Operation(Operation(DatabaseError(InvalidText)))))
    case Some(actor) =>
      var m := tx.mutation;
      tx.(delta := tx.delta.(audit := [AuditRow(EntityOf(m), LoggedId(m, target), ActionOf(m), actor)]),
          phase := Logged(target))
  }

  function InsertedRules(d: Delta): set<Uuid> {
    set r | r in d.rules && d.rules[r].Some?
  }

  /** Other transactions may see the committed rules from now on. */
  function Announce(txs: map<nat, Tx>, rules: set<Uuid>): map<nat, Tx> {
    map j | j in txs :: txs[j].(news := txs[j].news + rules)
  }

  function AfterCommit(s: State, k: nat): State
    requires k in s.txs && s.txs[k].phase.Logged?
  {
    var tx := s.txs[k];
    s.(committed := View(s.committed, tx.delta),
       txs := Announce(s.txs[k := RolledBack(tx, Finished(tx.phase.target))], InsertedRules(tx.delta)),
       order := s.order + [k])
  }

  function AskStage(user: IdText): Stage {
    if user == EMPTY_ID then Stage.Rejected(InvalidUserId) else Asked
  }

  function AfterLoadExperiment(c: Tables, call: Call): Stage {
    match FindExperiment(c.experiments, call.key, call.environment)
    case None => Stage.Rejected(ExperimentNotFound(call.key, call.environment))
    case Some(e) => HasExperiment(e)
  }

  function AfterLoadVariants(c: Tables, call: Call, e: Uuid): Stage {
    var list := VariantsOf(c.variants, e);
    if list == [] then Stage.Rejected(NoVariantsFound(call.key, call.environment)) else HasVariants(e, list)
  }

  function AfterLoadAssignment(s: State, call: Call, e: Uuid, list: seq<Variant>): Stage
    requires list != []
  {
    match ParseUuid(call.user)
    case None => Stage.Rejected(BadText())
    case Some(u) =>
      if (u, e) in s.committed.assignments then
        var v := s.committed.assignments[(u, e)];
        match VariantIndex(list, v)
        case None => Stage.Rejected(UnknownVariant(v))
        case Some(i) => Answered(e, list[i])
      else Unassigned(e, Assigned(s.hash, call.user, e, list))
  }

  function AfterStore(s: State, n: nat): State
    requires n in s.calls && s.calls[n].stage.Unassigned?
  {
    var call := s.calls[n];
    var e, v := call.stage.experiment, call.stage.variant;
    match ParseUuid(call.user)
    case None => s.(calls := s.calls[n := call.(stage := Stage.Rejected(BadText()))])
    case Some(u) =>
      match Upsert(s.committed, u, e, v.id)
      case Failure(reason) =>
        s.(calls := s.calls[n := call.(stage := Stage.Rejected(Operation(Operation(DatabaseError(reason)))))])
      case Success(t) =>
        s.(committed := t,
           calls := s.calls[n := call.(stage := Answered(e, v))],
           settled := if (u, e) in s.settled then s.settled else s.settled[(u, e) := v.id])
  }

  function After(s: State, step: Step): State
    requires Enabled(s, step)
  {
    match step
    case Open(k, m, claims) =>
      var tx := (
        match Admit(m, claims)
        case Failure(e) => Tx(m, claims, EMPTY_ID, NO_WRITES, Failed(e), {})
        case Success(actor) => Tx(m, claims, actor, NO_WRITES, Opened, {}));
      s.(txs := s.txs[k := tx])
    case Read(k) => s.(txs := s.txs[k := AfterRead(s, s.txs[k])])
    case Execute(k, id, missed) =>
      s.(txs := s.txs[k := AfterStatement(s.committed, s.txs[k], id, missed)],
         issued := if Mints(NextStatement(s.txs[k])) then s.issued + {id} else s.issued)
    case Log(k) => s.(txs := s.txs[k := AfterLog(s.txs[k], s.txs[k].phase.target)])
    case Commit(k) => AfterCommit(s, k)
    case Fault(k) => s.(txs := s.txs[k := RolledBack(s.txs[k], Failed(Operation(ConnectionFailure)))])
    case Ask(n, user, key, environment) =>
      s.(calls := s.calls[n := Call(user, key, environment, AskStage(user))])
    case LoadExperiment(n) =>
      s.(calls := s.calls[n := s.calls[n].(stage := AfterLoadExperiment(s.committed, s.calls[n]))])
    case LoadVariants(n) =>
      var call := s.calls[n];
      s.(calls := s.calls[n := call.(stage := AfterLoadVariants(s.committed, call, call.stage.experiment))])
    case LoadAssignment(n) =>
      var call := s.calls[n];
      s.(calls := s.calls[n :=
        call.(stage := AfterLoadAssignment(s, call, call.stage.experiment, call.stage.variants))])
    case Store(n) => AfterStore(s, n)
    case CallFault(n) =>
      s.(calls := s.calls[n := s.calls[n].(stage := Stage.Rejected(Operation(ConnectionFailure)))])
  }

  /** Steps that can be taken one after another from s. */
  ghost predicate Legal(s: State, steps: seq<Step>)
    decreases |steps|, 0
  {
    steps != [] ==>
      && Legal(s, steps[..|steps| - 1])
      && Enabled(Final(s, steps[..|steps| - 1]), steps[|steps| - 1])
  }

  /** Where a legal run ends. */
  ghost function Final(s: State, steps: seq<Step>): State
    requires Legal(s, steps)
    decreases |steps|, 1
  {
    if steps == [] then s else After(Final(s, steps[..|steps| - 1]), steps[|steps| - 1])
  }

  lemma Extend(s: State, steps: seq<Step>, step: Step)
    requires Legal(s, steps) && Enabled(Final(s, steps), step)
    ensures Legal(s, steps + [step]) && Final(s, steps + [step]) == After(Final(s, steps), step)
  {
    assert (steps + [step])[..|steps|] == steps;
  }

  /** One step more, to a known state. */
  lemma Advance(s: State, before: seq<Step>, step: Step, next: State) returns (steps: seq<Step>)
    requires Legal(s, before) && Enabled(Final(s, before), step) && After(Final(s, before), step) == next
    ensures Legal(s, steps) && Final(s, steps) == next && steps == before + [step]
  {
    hide Enabled, After;
    Extend(s, before, step);
    steps := before + [step];
  }

  /** Two runs, the second from where the first ends. */
  lemma {:induction false} Joins(s: State, a: seq<Step>, b: seq<Step>)
    requires Legal(s, a) && Legal(Final(s, a), b)
    ensures Legal(s, a + b) && Final(s, a + b) == Final(Final(s, a), b)
    decreases |b|
  {
    hide Enabled, After;
    if b == [] {
      assert a + b == a;
    } else {
      var init := b[..|b| - 1];
      Joins(s, a, init);
      assert (a + b)[..|a + b| - 1] == a + init;
      assert (a + b)[|a + b| - 1] == b[|b| - 1];
    }
  }

  /** The first steps of a run are a run. */
  lemma {:induction false} PrefixLegal(s: State, steps: seq<Step>, n: nat)
    requires Legal(s, steps) && n <= |steps|
    ensures Legal(s, steps[..n])
    decreases |steps|
  {
    if n == |steps| {
      assert steps[..n] == steps;
    } else {
      var init := steps[..|steps| - 1];
      assert init[..n] == steps[..n];
      PrefixLegal(s, init, n);
    }
  }

  /** The state of a run after its first n steps. */
  ghost function StateAt(s: State, steps: seq<Step>, n: nat): State
    requires Legal(s, steps) && n <= |steps|
  {
    PrefixLegal(s, steps, n);
    Final(s, steps[..n])
  }

  lemma StateAtEnd(s: State, steps: seq<Step>)
    requires Legal(s, steps)
    ensures StateAt(s, steps, |steps|) == Final(s, steps)
  {
    assert steps[..|steps|] == steps;
  }

  /** Each state of a run comes from the one before by its step. */
  lemma StateAtNext(s: State, steps: seq<Step>, n: nat)
    requires Legal(s, steps) && n < |steps|
    ensures Enabled(StateAt(s, steps, n), steps[n])
    ensures StateAt(s, steps, n + 1) == After(StateAt(s, steps, n), steps[n])
  {
    hide Enabled, After;
    PrefixLegal(s, steps, n + 1);
    assert steps[..n + 1][..n] == steps[..n];
  }

  lemma StateAtPrefix(s: State, steps: seq<Step>, more: seq<Step>, n: nat)
    requires Legal(s, steps + more) && n <= |steps|
    ensures Legal(s, steps) && StateAt(s, steps + more, n) == StateAt(s, steps, n)
  {
    hide Enabled, After;
    PrefixLegal(s, steps + more, |steps|);
    assert (steps + more)[..|steps|] == steps;
    assert (steps + more)[..n] == steps[..n];
  }
}
