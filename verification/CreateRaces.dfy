/**
 Creates that compete for one unique key, over whole runs: while nobody takes the key from
 the row that has it, one create commits and the others learn of the duplicate.
 */
module CreateRaces {
  import opened Wrappers
  import opened Schema
  import opened Statements
  import opened Errors
  import opened Auth
  import opened FlagRules
  import opened Weights
  import opened Protocol
  import opened Transactions
  import opened Interleaving
  import opened Isolation
  import opened Reachable
  import opened AuditTrail
  import opened Races
  import opened TxSteps

  /** Both create an entity under the same unique key. */
  predicate SameKey(m: Mutation, m': Mutation) {
    match (m, m')
    case (CreateFlag(a), CreateFlag(b)) => a.key == b.key && a.environment == b.environment
    case (CreateUser(a), CreateUser(b)) => a.email == b.email
    case (CreateExperiment(a), CreateExperiment(b)) => a.key == b.key && a.environment == b.environment
    case _ => false
  }

  /** The writes delete the committed row that has the key, or give it another one. */
  ghost predicate FreesKey(c: Tables, d: Delta, m: Mutation) {
    match m
    case CreateFlag(input) =>
      exists f :: f in c.flags && FlagKeyOf(c.flags[f]) == (input.key, input.environment) && f in d.flags
        && (d.flags[f] == None || FlagKeyOf(d.flags[f].value) != (input.key, input.environment))
    case CreateUser(input) =>
      exists u :: u in c.users && c.users[u].email == input.email && u in d.users
        && (d.users[u] == None || d.users[u].value.email != input.email)
    case CreateExperiment(input) =>
      exists e :: e in c.experiments && ExperimentKeyOf(c.experiments[e]) == (input.key, input.environment)
        && e in d.experiments
        && (d.experiments[e] == None
            || ExperimentKeyOf(d.experiments[e].value) != (input.key, input.environment))
    case _ => false
  }

  /** No transaction that commits in the run frees the key. */
  ghost predicate NeverFreed(s: State, steps: seq<Step>, m: Mutation)
    requires Legal(s, steps)
    decreases |steps|
  {
    steps != [] ==>
      var init, step := steps[..|steps| - 1], steps[|steps| - 1];
      var f := Final(s, init);
      NeverFreed(s, init, m) && (step.Commit? ==> !FreesKey(f.committed, f.txs[step.k].delta, m))
  }

  predicate ActsOnUser(m: Mutation, u: Uuid) {
    match m
    case UpdateUser(change) => ParseUuid(change.id) == Some(u)
    case DeleteUser(id) => ParseUuid(id) == Some(u)
    case _ => false
  }

  /**
   The mutation can free the key of m: the delete of the flag, or an update or delete of the
   user who has the email. Even an update that brings no email can, since it writes back the
   row it has read.
   */
  ghost predicate MayFree(c: Tables, freeing: Mutation, m: Mutation) {
    match m
    case CreateFlag(input) => freeing == Mutation.DeleteFlag(input.key, input.environment)
    case CreateUser(input) => exists u :: u in c.users && c.users[u].email == input.email && ActsOnUser(freeing, u)
    case _ => false
  }

  /** No mutation that commits in the run can free the key. */
  ghost predicate NobodyFrees(s: State, steps: seq<Step>, m: Mutation)
    requires Legal(s, steps)
    decreases |steps|
  {
    steps != [] ==>
      var init, step := steps[..|steps| - 1], steps[|steps| - 1];
      var f := Final(s, init);
      NobodyFrees(s, init, m) && (step.Commit? ==> !MayFree(f.committed, f.txs[step.k].mutation, m))
  }

  /** Nothing else frees a key, and nothing at all an experiment's. */
  lemma WhoFrees(c: Tables, issued: set<Uuid>, tx: Tx, x: Uuid, m: Mutation)
    requires TxOk(c, issued, tx) && tx.phase == Logged(x) && FreesKey(c, tx.delta, m)
    ensures MayFree(c, tx.mutation, m)
  {
    hide AuditFor;
    assert Touches(c, tx.delta, EntityOf(tx.mutation), x);
    assert Standing(c, tx.mutation, tx.delta, x) && Wrote(tx.mutation, tx.delta, x);
  }

  lemma {:induction false} NobodyFreesIt(s: State, steps: seq<Step>, m: Mutation)
    requires Initial(s) && Legal(s, steps) && NobodyFrees(s, steps, m)
    ensures NeverFreed(s, steps, m)
    decreases |steps|
  {
    if steps != [] {
      var init, step := steps[..|steps| - 1], steps[|steps| - 1];
      NobodyFreesIt(s, init, m);
      GoodAlways(s, init);
      var f := Final(s, init);
      hide Initial, Good, TxOk, MayFree, FreesKey;
      if step.Commit? && FreesKey(f.committed, f.txs[step.k].delta, m) {
        TxIsOk(f, step.k);
        WhoFrees(f.committed, f.issued, f.txs[step.k], f.txs[step.k].phase.target, m);
      }
    }
  }

  lemma KeyStaysTaken(c: Tables, d: Delta, m: Mutation)
    requires KeyTaken(c, m) && !FreesKey(c, d, m)
    ensures KeyTaken(View(c, d), m)
  {
    hide CascadeRules, CascadeAssignments;
    var v := View(c, d);
    match m
    case CreateFlag(input) =>
      var f :| f in c.flags && FlagKeyOf(c.flags[f]) == (input.key, input.environment);
      assert f in v.flags && FlagKeyOf(v.flags[f]) == (input.key, input.environment);
    case CreateUser(input) =>
      var u :| u in c.users && c.users[u].email == input.email;
      assert u in v.users && v.users[u].email == input.email;
    case CreateExperiment(input) =>
      var e :| e in c.experiments && ExperimentKeyOf(c.experiments[e]) == (input.key, input.environment);
      assert e in v.experiments && ExperimentKeyOf(v.experiments[e]) == (input.key, input.environment);
  }

  lemma CommittedCreateTakesKey(c: Tables, issued: set<Uuid>, tx: Tx, x: Uuid)
    requires TxOk(c, issued, tx) && tx.phase == Logged(x) && ActionOf(tx.mutation) == Create
    ensures KeyTaken(View(c, tx.delta), tx.mutation)
  {
    hide AuditFor, Touches, Standing, CascadeRules, CascadeAssignments;
    var v := View(c, tx.delta);
    assert Wrote(tx.mutation, tx.delta, x);
    match tx.mutation
    case CreateFlag(_) => assert x in v.flags;
    case CreateUser(_) => assert x in v.users;
    case CreateExperiment(_) => assert x in v.experiments;
  }

  // ---------------------------------------------------------------- one winner

  ghost predicate OneWinner(s: State, m: Mutation) {
    && (forall i :: 0 <= i < |s.order| && s.order[i] in s.txs && SameKey(s.txs[s.order[i]].mutation, m) ==>
          KeyTaken(s.committed, m))
    && (forall i, j :: 0 <= i < j < |s.order| && s.order[i] in s.txs && s.order[j] in s.txs ==>
          !(SameKey(s.txs[s.order[i]].mutation, m) && SameKey(s.txs[s.order[j]].mutation, m)))
  }

  lemma SameKeySameFate(c: Tables, m: Mutation, m': Mutation)
    requires SameKey(m, m')
    ensures KeyTaken(c, m) == KeyTaken(c, m') && DuplicateOf(m) == DuplicateOf(m')
    ensures ActionOf(m) == Create
  {
  }

  lemma OrderAfterCommit(s: State, k: nat)
    requires k in s.txs && s.txs[k].phase.Logged?
    ensures var s' := AfterCommit(s, k);
      && s'.order == s.order + [k] && s'.txs.Keys == s.txs.Keys
      && s'.committed == View(s.committed, s.txs[k].delta)
      && forall j :: j in s.txs ==> s'.txs[j].mutation == s.txs[j].mutation
  {
    hide View;
  }

  /** What the commit means for the key. */
  lemma KeyAfterCommit(c: Tables, issued: set<Uuid>, tx: Tx, m: Mutation)
    requires tx.phase.Logged? && TxOk(c, issued, tx) && Consistent(View(c, tx.delta)) && !FreesKey(c, tx.delta, m)
    ensures SameKey(tx.mutation, m) ==> !KeyTaken(c, m) && KeyTaken(View(c, tx.delta), m)
    ensures KeyTaken(c, m) ==> KeyTaken(View(c, tx.delta), m)
  {
    hide TxOk, Consistent, View, KeyTaken, FreesKey, SameKey;
    if SameKey(tx.mutation, m) {
      SameKeySameFate(c, tx.mutation, m);
      SameKeySameFate(View(c, tx.delta), tx.mutation, m);
      HolderMeetsNoCommittedRow(c, issued, tx);
      CommittedCreateTakesKey(c, issued, tx, tx.phase.target);
    } else if KeyTaken(c, m) {
      KeyStaysTaken(c, tx.delta, m);
    }
  }

  lemma WinnerAfterCommit(s: State, k: nat, m: Mutation)
    requires k in s.txs && s.txs[k].phase.Logged? && TxOk(s.committed, s.issued, s.txs[k])
    requires Consistent(View(s.committed, s.txs[k].delta)) && !FreesKey(s.committed, s.txs[k].delta, m)
    requires OneWinner(s, m)
    ensures OneWinner(AfterCommit(s, k), m)
  {
    hide TxOk, Consistent, View, KeyTaken, FreesKey, SameKey, AfterCommit;
    KeyAfterCommit(s.committed, s.issued, s.txs[k], m);
    OrderAfterCommit(s, k);
  }

  lemma WinnerAfterOther(s: State, step: Step, m: Mutation)
    requires Enabled(s, step) && !step.Commit? && OneWinner(s, m)
    requires forall i :: 0 <= i < |s.order| ==> s.order[i] in s.txs
    ensures OneWinner(After(s, step), m)
  {
    OtherStepsWriteNothing(s, step);
    OrderKept(s, step);
    forall i | 0 <= i < |s.order|
      ensures s.order[i] in After(s, step).txs
      ensures After(s, step).txs[s.order[i]].mutation == s.txs[s.order[i]].mutation
    {
      TxsKept(s, step, s.order[i]);
    }
    SameRowsSameKey(s.committed, After(s, step).committed, m);
    hide After, Enabled, SameKey, KeyTaken;
  }

  lemma SameRowsSameKey(c: Tables, c': Tables, m: Mutation)
    requires c' == c.(assignments := c'.assignments)
    ensures KeyTaken(c', m) == KeyTaken(c, m)
  {
  }

  lemma GoodParts(s: State, k: nat)
    requires Good(s) && k in s.txs
    ensures TxOk(s.committed, s.issued, s.txs[k]) && Consistent(View(s.committed, s.txs[k].delta))
  {
  }

  lemma {:induction false} OneWinnerAlways(s: State, steps: seq<Step>, m: Mutation)
    requires Initial(s) && Legal(s, steps) && NeverFreed(s, steps, m)
    ensures OneWinner(Final(s, steps), m)
    decreases |steps|
  {
    if steps != [] {
      var init, step := steps[..|steps| - 1], steps[|steps| - 1];
      OneWinnerAlways(s, init, m);
      GoodAlways(s, init);
      EveryCommitIsAudited(s, init);
      var f := Final(s, init);
      hide Good, OneWinner, FreesKey, TxOk, Consistent, View, AuditFor;
      if step.Commit? {
        GoodParts(f, step.k);
        WinnerAfterCommit(f, step.k, m);
      } else {
        WinnerAfterOther(f, step, m);
      }
    }
  }

  // ---------------------------------------------------------------- what the others get

  /** Nothing but a taken key or a fault can keep this create from being carried out. */
  predicate WouldSucceed(m: Mutation) {
    match m
    case CreateFlag(input) => ResolveStrategyForCreate(input).Success?
    case CreateUser(input) =>
      && !input.role.UnknownRole?
      && WithPassword(UserRow(input.email, input.role, None), input.password, input.digest).Success?
    case CreateExperiment(input) =>
      && Verdict(WeightsOf(input.variants)).Success?
      && forall i :: 0 <= i < |input.variants| ==> input.variants[i].weight <= MAX_INTEGER
    case _ => false
  }

  /** The caller is let in, with a subject the audit log can store. */
  predicate Entitled(m: Mutation, claims: Option<Claims>) {
    Admit(m, claims).Success? && ParseUuid(Admit(m, claims).value).Some?
  }

  /** Such a create fails for a taken key or a fault only. */
  ghost predicate OnCourse(tx: Tx) {
    WouldSucceed(tx.mutation) && Entitled(tx.mutation, tx.claims) ==>
      && tx.actor == Admit(tx.mutation, tx.claims).value
      && match tx.phase
         case Failed(e) => InChain(e, DuplicateOf(tx.mutation)) || e == Operation(ConnectionFailure)
         case NothingThere => false
         case Running(x, todo) =>
           var all := Children(tx.mutation, x); |todo| <= |all| && todo == all[|all| - |todo|..]
         case _ => true
  }

  lemma OnlyDuplicatesRefused(c: Tables, m: Mutation)
    requires WouldSucceed(m) && Decide(c, m).Failure?
    ensures Decide(c, m).error == DuplicateOf(m)
  {
    hide FindFlag, FindEmail, FindExperiment, Verdict, ResolveStrategyForCreate;
  }

  lemma CreatesInsert(c: Tables, m: Mutation)
    requires WouldSucceed(m) && Decide(c, m).Success?
    ensures Decide(c, m).value.NewRow?
  {
    hide FindFlag, FindEmail, FindExperiment, Verdict, ResolveStrategyForCreate;
  }

  lemma InsertRefusedForKey(t: Tables, m: Mutation, insert: Statement, id: Uuid)
    requires WouldSucceed(m) && Opens(m, insert)
    ensures match Exec(t, insert, id)
      case Applied(_) => true
      case NoRows => false
      case Rejected(reason) => StoreError(insert, reason) == DuplicateOf(m)
  {
    hide EmailTaken, FlagKeyTaken, ExperimentKeyTaken, Verdict, ResolveStrategyForCreate;
  }

  /** The statement can only take effect, on tables that hold its parent row. */
  predicate Fits(s: Statement, x: Uuid) {
    match s
    case DeleteRules(_) => true
    case InsertRule(row) => row.flag == x && !row.kind.UntypedRule?
    case InsertVariant(row) => row.experiment == x && 0 <= row.weight <= MAX_INTEGER
    case _ => false
  }

  lemma ChildrenFit(m: Mutation, x: Uuid)
    requires WouldSucceed(m)
    ensures forall i :: 0 <= i < |Children(m, x)| ==> Fits(Children(m, x)[i], x)
  {
    hide ResolveStrategyForCreate, MachineSum;
    match m
    case CreateFlag(input) =>
      var todo := Replacement(x, input.rules);
      forall i | 0 <= i < |todo|
        ensures Fits(todo[i], x)
      {
        if i > 0 {
          assert todo[i] == InsertRule(RuleRows(x, input.rules)[i - 1]);
        }
      }
    case CreateExperiment(input) =>
      forall i | 0 <= i < |input.variants|
        ensures 0 <= input.variants[i].weight
      {
        assert WeightsOf(input.variants)[i] == input.variants[i].weight;
      }
    case CreateUser(_) =>
  }

  lemma FittingStatementRuns(t: Tables, m: Mutation, s: Statement, x: Uuid, id: Uuid)
    requires Fits(s, x) && OnTarget(m, x, s)
    requires m.CreateFlag? ==> x in t.flags
    requires m.CreateExperiment? ==> x in t.experiments
    ensures Exec(t, s, id).Applied? || m.UpdateFlag?
  {
  }

  lemma CreatedRowSeen(c: Tables, issued: set<Uuid>, tx: Tx)
    requires TxOk(c, issued, tx) && tx.phase.Running? && ActionOf(tx.mutation) == Create
    ensures tx.mutation.CreateFlag? ==> tx.phase.target in View(c, tx.delta).flags
    ensures tx.mutation.CreateExperiment? ==> tx.phase.target in View(c, tx.delta).experiments
    ensures tx.phase.todo != [] ==> OnTarget(tx.mutation, tx.phase.target, tx.phase.todo[0])
  {
    hide Touches, Standing, CascadeRules, CascadeAssignments;
    assert Wrote(tx.mutation, tx.delta, tx.phase.target);
  }

  lemma CreatesOnly(m: Mutation)
    requires WouldSucceed(m)
    ensures ActionOf(m) == Create
  {
  }

  lemma ChildOnCourse(c: Tables, issued: set<Uuid>, tx: Tx, id: Uuid, missed: set<Uuid>)
    requires tx.phase.Running? && Waiting(tx) && TxOk(c, issued, tx) && OnCourse(tx)
    requires WouldSucceed(tx.mutation) && Entitled(tx.mutation, tx.claims)
    ensures OnCourse(AfterStatement(c, tx, id, missed))
  {
    hide TxOk, Exec, View, Record, WouldSucceed, Entitled, Children, Admit, OnTarget, Fits, Mints;
    var m, x, todo := tx.mutation, tx.phase.target, tx.phase.todo;
    var all := Children(m, x);
    CreatesOnly(m);
    CreatedRowSeen(c, issued, tx);
    ChildrenFit(m, x);
    SuffixNext(all, todo);
    FittingStatementRuns(View(c, tx.delta), m, todo[0], x, id);
  }

  lemma WholeRest<T>(all: seq<T>)
    ensures all == all[|all| - |all|..]
  {
  }

  lemma InsertOnCourse(c: Tables, issued: set<Uuid>, tx: Tx, id: Uuid, missed: set<Uuid>)
    requires tx.phase.Inserting? && TxOk(c, issued, tx) && OnCourse(tx)
    requires WouldSucceed(tx.mutation) && Entitled(tx.mutation, tx.claims)
    ensures OnCourse(AfterStatement(c, tx, id, missed))
  {
    hide Exec, View, Record, WouldSucceed, Entitled, Children, Admit, Opens, StoreError, Mints, DuplicateOf;
    var m, insert := tx.mutation, tx.phase.insert;
    ViewOfNothing(c);
    InsertRefusedForKey(c, m, insert, id);
    WholeRest(Children(m, id));
    DirectCause(DuplicateOf(m));
  }

  lemma DirectCause(e: Error)
    ensures InChain(Operation(e), e)
  {
  }

  lemma ReadOnCourse(s: State, tx: Tx)
    requires tx.phase.Opened? && OnCourse(tx)
    ensures OnCourse(AfterRead(s, tx))
  {
    if WouldSucceed(tx.mutation) {
      if Decide(s.committed, tx.mutation).Success? {
        CreatesInsert(s.committed, tx.mutation);
      } else {
        OnlyDuplicatesRefused(s.committed, tx.mutation);
      }
    }
    hide Decide, WouldSucceed, Entitled, Admit;
  }

  lemma OpenOnCourse(m: Mutation, claims: Option<Claims>)
    ensures match Admit(m, claims)
      case Failure(e) => OnCourse(Tx(m, claims, EMPTY_ID, NO_WRITES, Failed(e), {}))
      case Success(actor) => OnCourse(Tx(m, claims, actor, NO_WRITES, Opened, {}))
  {
    hide Admit, WouldSucceed;
  }

  lemma LogOnCourse(tx: Tx)
    requires OnCourse(tx) && tx.phase.Running?
    ensures OnCourse(AfterLog(tx, tx.phase.target))
  {
    hide Admit, WouldSucceed, Children;
  }

  lemma EndOnCourse(tx: Tx, x: Uuid, news: set<Uuid>)
    requires OnCourse(tx)
    ensures OnCourse(RolledBack(tx, Failed(Operation(ConnectionFailure)))) && OnCourse(RolledBack(tx, Finished(x)))
    ensures OnCourse(tx.(news := news))
  {
    hide Admit, WouldSucceed, Children;
  }

  /** One transaction at any step. */
  lemma CourseAfterStep(s: State, step: Step, k: nat)
    requires Enabled(s, step) && k in After(s, step).txs
    requires k in s.txs ==> OnCourse(s.txs[k]) && TxOk(s.committed, s.issued, s.txs[k])
    ensures OnCourse(After(s, step).txs[k])
  {
    hide TxOk, OnCourse, Admit, Decide, Exec, View, Record, AfterStatement, AfterRead, AfterLog, Blocked, Mints, Upsert,
      InsertedRules;
    match step
    case Open(j, m, claims) =>
      if j == k {
        OpenOnCourse(m, claims);
      }
    case Read(j) =>
      if j == k {
        ReadOnCourse(s, s.txs[k]);
      }
    case Execute(j, id, missed) =>
      if j == k {
        StatementOnCourse(s.committed, s.issued, s.txs[k], id, missed);
      }
    case Log(j) =>
      if j == k {
        LogOnCourse(s.txs[k]);
      }
    case Fault(j) =>
      if j == k {
        EndOnCourse(s.txs[k], 0, {});
      }
    case Commit(j) => CommitOnCourse(s, j, k);
    case _ =>
  }

  lemma StatementOnCourse(c: Tables, issued: set<Uuid>, tx: Tx, id: Uuid, missed: set<Uuid>)
    requires Waiting(tx) && TxOk(c, issued, tx) && OnCourse(tx)
    ensures OnCourse(AfterStatement(c, tx, id, missed))
  {
    MutationOfStatement(c, tx, id, missed);
    if WouldSucceed(tx.mutation) && Entitled(tx.mutation, tx.claims) {
      hide *;
      if tx.phase.Inserting? {
        InsertOnCourse(c, issued, tx, id, missed);
      } else {
        ChildOnCourse(c, issued, tx, id, missed);
      }
    } else {
      hide WouldSucceed, Entitled, AfterStatement;
    }
  }

  lemma MutationOfStatement(c: Tables, tx: Tx, id: Uuid, missed: set<Uuid>)
    requires Waiting(tx)
    ensures var tx' := AfterStatement(c, tx, id, missed); tx'.mutation == tx.mutation && tx'.claims == tx.claims
  {
    hide Exec, View, Record;
  }

  lemma CommitOnCourse(s: State, j: nat, k: nat)
    requires j in s.txs && s.txs[j].phase.Logged? && k in s.txs && OnCourse(s.txs[k])
    ensures OnCourse(AfterCommit(s, j).txs[k])
  {
    hide OnCourse, View, InsertedRules;
    var x := s.txs[j].phase.target;
    EndOnCourse(s.txs[k], x, s.txs[k].news);
    var tx := if k == j then RolledBack(s.txs[k], Finished(x)) else s.txs[k];
    EndOnCourse(tx, x, AfterCommit(s, j).txs[k].news);
  }

  lemma {:induction false} OnCourseAlways(s: State, steps: seq<Step>)
    requires Initial(s) && Legal(s, steps)
    ensures forall k :: k in Final(s, steps).txs ==> OnCourse(Final(s, steps).txs[k])
    decreases |steps|
  {
    if steps != [] {
      var init, step := steps[..|steps| - 1], steps[|steps| - 1];
      OnCourseAlways(s, init);
      GoodAlways(s, init);
      var f := Final(s, init);
      hide Initial, Good, TxOk, OnCourse, Enabled, After;
      forall k | k in After(f, step).txs
        ensures OnCourse(After(f, step).txs[k])
      {
        if k in f.txs {
          TxIsOk(f, k);
        }
        CourseAfterStep(f, step, k);
      }
    }
  }

  /** A create for the key of m that nothing but that key or a fault can keep from being carried out. */
  ghost predicate Competes(tx: Tx, m: Mutation) {
    SameKey(tx.mutation, m) && WouldSucceed(tx.mutation) && Entitled(tx.mutation, tx.claims)
  }

  /** Failed with the duplicate somewhere in its chain, or with a fault. */
  ghost predicate Lost(p: Phase, m: Mutation) {
    p.Failed? && (InChain(p.error, DuplicateOf(m)) || p.error == Operation(ConnectionFailure))
  }

  /** One create for the key commits at most, and every other competitor that has ended has lost. */
  ghost predicate OneWins(s: State, m: Mutation) {
    && (forall i, j :: 0 <= i < j < |s.order| ==>
          && s.order[i] in s.txs && s.order[j] in s.txs
          && !(SameKey(s.txs[s.order[i]].mutation, m) && SameKey(s.txs[s.order[j]].mutation, m)))
    && (forall k :: k in s.txs && Competes(s.txs[k], m) && Ended(s.txs[k].phase) ==>
          (s.txs[k].phase.Finished? && k in s.order) || Lost(s.txs[k].phase, m))
  }

  /** This holds while no transaction that commits takes the key from its row. */
  lemma OneWinsUnlessFreed(s: State, steps: seq<Step>, m: Mutation)
    requires Initial(s) && Legal(s, steps) && NeverFreed(s, steps, m)
    ensures OneWins(Final(s, steps), m)
  {
    OneWinnerAlways(s, steps, m);
    EveryCommitIsAudited(s, steps);
    OnCourseAlways(s, steps);
    var f := Final(s, steps);
    hide Initial, Legal, Final, NeverFreed, SameKey, AuditFor, KeyTaken, Appended, OnCourse, Competes, Lost;
    forall k | k in f.txs && Competes(f.txs[k], m) && Ended(f.txs[k].phase)
      ensures (f.txs[k].phase.Finished? && k in f.order) || Lost(f.txs[k].phase, m)
    {
      EndsOnCourse(f.txs[k], m);
    }
  }

  /**
   Of the creates for one key at most one commits in a run in which no mutation commits that
   can free the key, and each other one that could have succeeded and has ended failed with
   the duplicate in its chain or with a fault.
   */
  lemma OneCreateWins(s: State, steps: seq<Step>, m: Mutation)
    requires Initial(s) && Legal(s, steps) && NobodyFrees(s, steps, m)
    ensures OneWins(Final(s, steps), m)
  {
    hide Initial, Legal, Final, NobodyFrees, NeverFreed, OneWins;
    NobodyFreesIt(s, steps, m);
    OneWinsUnlessFreed(s, steps, m);
  }

  lemma EndsOnCourse(tx: Tx, m: Mutation)
    requires OnCourse(tx) && Competes(tx, m) && Ended(tx.phase)
    ensures tx.phase.Finished? || Lost(tx.phase, m)
  {
    hide WouldSucceed, Entitled, InChain, Admit;
    assert DuplicateOf(tx.mutation) == DuplicateOf(m);
    hide DuplicateOf, SameKey;
  }
}
