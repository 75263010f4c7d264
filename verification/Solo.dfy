/**
 The interleaving machine and the services agree: a mutation whose steps nothing interrupts
 ends exactly as the serial outcome the services are proved against.
 */
module Solo {
  import opened Wrappers
  import opened Schema
  import opened Statements
  import opened Errors
  import opened Auth
  import opened Weights
  import opened Protocol
  import opened Transactions
  import opened Interleaving
  import opened Isolation

  /** No transaction but k holds any writes. */
  ghost predicate Alone(s: State, k: nat) {
    forall j :: j in s.txs && j != k ==> s.txs[j].delta == NO_WRITES
  }

  /** A good state in which every transaction has ended. */
  ghost predicate AtRest(s: State) {
    Good(s) && forall k :: k in s.txs ==> Ended(s.txs[k].phase)
  }

  lemma RestHoldsNothing(s: State, k: nat)
    requires AtRest(s)
    ensures Alone(s, k) && Consistent(s.committed) && IdsOf(s.committed) <= s.issued
  {
    hide Consistent, IdsOf, RunningOk, Isolated, AllViewsConsistent;
    forall j | j in s.txs
      ensures s.txs[j].delta == NO_WRITES
    {
      assert TxOk(s.committed, s.issued, s.txs[j]);
    }
  }

  /** s with transaction k at tx. */
  function At(s: State, k: nat, tx: Tx, issued: set<Uuid>): State {
    s.(txs := s.txs[k := tx], issued := issued)
  }

  /** Ids from n on are distinct and new to the database and to the transaction. */
  ghost predicate NewIds(ids: nat -> Uuid, n: nat, issued: set<Uuid>, d: Delta) {
    && (forall i, j :: n <= i < j ==> ids(i) != ids(j))
    && (forall i :: n <= i ==> ids(i) !in issued && Untouched(d, ids(i)))
  }

  /** How a mutation ends that fails with e before its audit row. */
  function Ending(m: Mutation, e: Error): Phase {
    if m.DeleteUser? && IsUserNotFound(e) then NothingThere else Failed(e)
  }

  /** A transaction that deletes a user runs that one statement. */
  ghost predicate OnlyDeletes(m: Mutation, todo: seq<Statement>) {
    m.DeleteUser? ==> forall i :: 0 <= i < |todo| ==> todo[i].DeleteUser?
  }

  /** No other transaction holds up a statement of k. */
  ghost predicate Free(s: State, k: nat, stmt: Statement) {
    forall j :: j in s.txs && j != k ==> !HoldsUp(s.committed, s.txs[j].delta, stmt)
  }

  lemma AloneIsFree(s: State, k: nat)
    requires Alone(s, k)
    ensures forall stmt :: Free(s, k, stmt)
  {
    forall stmt
      ensures Free(s, k, stmt)
    {
      assert !HoldsUp(s.committed, NO_WRITES, stmt);
    }
  }

  lemma NotBlocked(s: State, k: nat, tx: Tx, issued: set<Uuid>, stmt: Statement)
    requires Free(s, k, stmt)
    ensures !Blocked(At(s, k, tx, issued), k, stmt)
  {
    hide HoldsUp;
  }

  /** The statement fails: the transaction ends as the failure says. */
  lemma FailsAs(c: Tables, tx: Tx, id: Uuid)
    requires Waiting(tx) && OnlyDeletes(tx.mutation, [NextStatement(tx)])
    ensures var stmt := NextStatement(tx);
      match Exec(View(c, tx.delta), stmt, id)
      case Applied(_) => true
      case NoRows =>
        AfterStatement(c, tx, id, {}) == RolledBack(tx, Ending(tx.mutation, Operation(MissingError(stmt))))
      case Rejected(reason) =>
        AfterStatement(c, tx, id, {}) == RolledBack(tx, Ending(tx.mutation, Operation(StoreError(stmt, reason))))
  {
    assert [NextStatement(tx)][0] == NextStatement(tx);
    hide View;
    NotFoundIsRoot(Operation(MissingError(NextStatement(tx))));
  }

  /** Recording a statement touches no id that is still to come. */
  lemma RecordsOneId(c: Tables, d: Delta, s: Statement, ids: nat -> Uuid, n: nat, issued: set<Uuid>)
    requires NewIds(ids, n, issued, d) && IdsOf(c) <= issued
    requires Exec(View(c, d), s, ids(n)).Applied?
    ensures Record(c, d, s, ids(n), {}).audit == d.audit
    ensures NewIds(ids, if Mints(s) then n + 1 else n, if Mints(s) then issued + {ids(n)} else issued,
      Record(c, d, s, ids(n), {}))
  {
    hide Record, Untouched, Exec, View, IdsOf;
    forall i: nat | (if Mints(s) then n + 1 else n) <= i
      ensures Untouched(Record(c, d, s, ids(n), {}), ids(i))
    {
      TouchesNothingNew(c, d, s, ids(n), {}, ids(i));
    }
    TouchesNothingNew(c, d, s, ids(n), {}, ids(n + 1));
  }

  /** The statement passes: the transaction sees its effect, and later ids stay new. */
  lemma PassesAs(c: Tables, tx: Tx, ids: nat -> Uuid, n: nat, issued: set<Uuid>)
    requires Waiting(tx) && NewIds(ids, n, issued, tx.delta) && IdsOf(c) <= issued
    requires Exec(View(c, tx.delta), NextStatement(tx), ids(n)).Applied?
    ensures var next := AfterStatement(c, tx, ids(n), {}); var stmt := NextStatement(tx);
      && View(c, next.delta) == Exec(View(c, tx.delta), stmt, ids(n)).tables
      && next == tx.(delta := next.delta, phase := Proceed(tx, ids(n)))
      && next.delta.audit == tx.delta.audit
      && NewIds(ids, if Mints(stmt) then n + 1 else n, if Mints(stmt) then issued + {ids(n)} else issued, next.delta)
  {
    hide Record, Exec, View;
    assert Untouched(tx.delta, ids(n));
    SeesOwnWrites(c, tx.delta, NextStatement(tx), ids(n));
    RecordsOneId(c, tx.delta, NextStatement(tx), ids, n, issued);
    hide Untouched, NewIds;
  }

  lemma FirstIdNew(ids: nat -> Uuid, n: nat, issued: set<Uuid>, d: Delta)
    requires NewIds(ids, n, issued, d)
    ensures ids(n) !in issued
  {
  }

  predicate OfTx(step: Step, k: nat, m: Mutation) {
    match step
    case Open(j, opens, _) => j == k && opens == m
    case Read(j) => j == k
    case Execute(j, _, _) => j == k
    case Log(j) => j == k
    case Commit(j) => j == k
    case _ => false
  }

  /** Every step is one of transaction k, which carries out m. */
  ghost predicate OnlyOf(steps: seq<Step>, k: nat, m: Mutation) {
    forall i :: 0 <= i < |steps| ==> OfTx(steps[i], k, m)
  }

  /** The state a run of transaction k alone has reached. */
  ghost predicate Reached(s: State, k: nat, steps: seq<Step>, tx: Tx, issued: set<Uuid>) {
    OnlyOf(steps, k, tx.mutation) && Legal(s, steps) && Final(s, steps) == At(s, k, tx, issued)
  }

  lemma MutationKept(c: Tables, tx: Tx, id: Uuid, missed: set<Uuid>)
    ensures Waiting(tx) ==> AfterStatement(c, tx, id, missed).mutation == tx.mutation
    ensures forall target :: AfterLog(tx, target).mutation == tx.mutation
  {
    hide Exec, View, Record;
  }

  /** The statement of k as a step of the machine. */
  lemma StatementStep(s: State, k: nat, tx: Tx, issued: set<Uuid>, id: Uuid, missed: set<Uuid>)
    requires Waiting(tx) && missed <= tx.news && Free(s, k, NextStatement(tx))
    requires Mints(NextStatement(tx)) ==> id !in issued
    ensures var t := At(s, k, tx, issued);
      && Enabled(t, Execute(k, id, missed))
      && After(t, Execute(k, id, missed)) == At(s, k, AfterStatement(s.committed, tx, id, missed),
           if Mints(NextStatement(tx)) then issued + {id} else issued)
  {
    hide AfterStatement, Blocked, Mints, Free;
    NotBlocked(s, k, tx, issued, NextStatement(tx));
    var next := AfterStatement(s.committed, tx, id, missed);
    assert s.txs[k := tx][k := next] == s.txs[k := next];
  }

  lemma OneStatement(s: State, k: nat, before: seq<Step>, tx: Tx, issued: set<Uuid>, id: Uuid, missed: set<Uuid>)
    returns (steps: seq<Step>)
    requires Waiting(tx) && missed <= tx.news && Free(s, k, NextStatement(tx)) && Reached(s, k, before, tx, issued)
    requires Mints(NextStatement(tx)) ==> id !in issued
    ensures Reached(s, k, steps, AfterStatement(s.committed, tx, id, missed),
      if Mints(NextStatement(tx)) then issued + {id} else issued)
    ensures steps == before + [Execute(k, id, missed)]
  {
    MutationKept(s.committed, tx, id, missed);
    StatementStep(s, k, tx, issued, id, missed);
    hide AfterStatement, Mints, Free, Enabled, After, At, Legal, Final;
    steps := Advance(s, before, Execute(k, id, missed), At(s, k, AfterStatement(s.committed, tx, id, missed),
      if Mints(NextStatement(tx)) then issued + {id} else issued));
  }

  /** The next part of a plan, statement by statement, does what RunTodo says. */
  lemma {:induction false} TodoRuns(
    s: State, k: nat, before: seq<Step>, tx: Tx, issued: set<Uuid>, ids: nat -> Uuid, n: nat,
    part: seq<Statement>, rest: seq<Statement>)
    returns (steps: seq<Step>, end: Tx, all: set<Uuid>, m: nat)
    requires Reached(s, k, before, tx, issued) && IdsOf(s.committed) <= issued
    requires tx.phase.Running? && tx.phase.todo == part + rest && tx.delta.audit == []
    requires OnlyDeletes(tx.mutation, part) && forall i :: 0 <= i < |part| ==> Free(s, k, part[i])
    requires NewIds(ids, n, issued, tx.delta)
    ensures Reached(s, k, steps, end, all) && issued <= all
    ensures match RunTodo(View(s.committed, tx.delta), part, ids, n)
      case Success(t) =>
        && end == tx.(delta := end.delta, phase := Running(tx.phase.target, rest))
        && View(s.committed, end.delta) == t && end.delta.audit == []
        && NewIds(ids, m, all, end.delta)
      case Failure(e) => end == RolledBack(tx, Ending(tx.mutation, e))
    decreases |part|
  {
    hide View, Exec, AfterStatement, NewIds, Free, Reached, IdsOf, Mints;
    if part == [] {
      assert part + rest == rest;
      return before, tx, issued, n;
    }
    var stmt, c := part[0], s.committed;
    assert tx.phase.todo[0] == stmt && tx.phase.todo[1..] == part[1..] + rest;
    FirstIdNew(ids, n, issued, tx.delta);
    steps := OneStatement(s, k, before, tx, issued, ids(n), {});
    var next := AfterStatement(c, tx, ids(n), {});
    all := if Mints(stmt) then issued + {ids(n)} else issued;
    if Exec(View(c, tx.delta), stmt, ids(n)).Applied? {
      PassesAs(c, tx, ids, n, issued);
      steps, end, all, m := TodoRuns(s, k, steps, next, all, ids, if Mints(stmt) then n + 1 else n, part[1..], rest);
    } else {
      FailsAs(c, tx, ids(n));
      end, m := next, n;
    }
  }

  /** The whole rest of a plan of a transaction that is alone. */
  lemma AllTodoRuns(
    s: State, k: nat, before: seq<Step>, tx: Tx, issued: set<Uuid>, ids: nat -> Uuid, n: nat)
    returns (steps: seq<Step>, end: Tx, all: set<Uuid>)
    requires Alone(s, k) && Reached(s, k, before, tx, issued) && IdsOf(s.committed) <= issued
    requires tx.phase.Running? && tx.delta.audit == [] && OnlyDeletes(tx.mutation, tx.phase.todo)
    requires NewIds(ids, n, issued, tx.delta)
    ensures Reached(s, k, steps, end, all)
    ensures match RunTodo(View(s.committed, tx.delta), tx.phase.todo, ids, n)
      case Success(t) =>
        && end == tx.(delta := end.delta, phase := Running(tx.phase.target, []))
        && View(s.committed, end.delta) == t && end.delta.audit == []
      case Failure(e) => end == RolledBack(tx, Ending(tx.mutation, e))
  {
    hide View, NewIds, Free, Alone, RunTodo, Reached;
    AloneIsFree(s, k);
    assert tx.phase.todo + [] == tx.phase.todo;
    var m;
    steps, end, all, m := TodoRuns(s, k, before, tx, issued, ids, n, tx.phase.todo, []);
  }

  /** The new row of a plan, then its children. */
  lemma InsertRuns(s: State, k: nat, before: seq<Step>, tx: Tx, ids: nat -> Uuid, n: nat)
    returns (steps: seq<Step>, end: Tx, all: set<Uuid>)
    requires Alone(s, k) && Reached(s, k, before, tx, s.issued) && IdsOf(s.committed) <= s.issued
    requires tx.phase.Inserting? && Mints(tx.phase.insert) && tx.delta == NO_WRITES && !tx.mutation.DeleteUser?
    requires NewIds(ids, n, s.issued, NO_WRITES)
    ensures Reached(s, k, steps, end, all)
    ensures match RunPlan(s.committed, tx.mutation, NewRow(tx.phase.insert), ids, n)
      case Success(t) =>
        && end == tx.(delta := end.delta, phase := Running(ids(n), []))
        && View(s.committed, end.delta) == t && end.delta.audit == []
      case Failure(e) => end == RolledBack(tx, Ending(tx.mutation, e))
  {
    hide View, Exec, AfterStatement, NewIds, Children, RunTodo;
    var stmt, c := tx.phase.insert, s.committed;
    ViewOfNothing(c);
    FirstIdNew(ids, n, s.issued, NO_WRITES);
    AloneIsFree(s, k);
    steps := OneStatement(s, k, before, tx, s.issued, ids(n), {});
    var next := AfterStatement(c, tx, ids(n), {});
    all := s.issued + {ids(n)};
    if Exec(c, stmt, ids(n)).Applied? {
      PassesAs(c, tx, ids, n, s.issued);
      steps, end, all := AllTodoRuns(s, k, steps, next, all, ids, n + 1);
    } else {
      FailsAs(c, tx, ids(n));
      end := next;
    }
  }

  /** Where a mutation stands after its reads. */
  function AfterDecision(t: Tables, tx: Tx): Tx {
    match Decide(t, tx.mutation)
    case Failure(e) => RolledBack(tx, Failed(e))
    case Success(NewRow(insert)) => tx.(phase := Inserting(insert))
    case Success(OnRow(target, todo)) => tx.(phase := Running(target, todo))
  }

  function Starting(m: Mutation, claims: Option<Claims>): Tx
    requires Admit(m, claims).Success?
  {
    Tx(m, claims, Admit(m, claims).value, NO_WRITES, Opened, {})
  }

  lemma Opens(s: State, k: nat, m: Mutation, claims: Option<Claims>) returns (steps: seq<Step>)
    requires k !in s.txs && Admit(m, claims).Success?
    ensures Reached(s, k, steps, Starting(m, claims), s.issued)
  {
    hide Admit;
    steps := Advance(s, [], Open(k, m, claims), At(s, k, Starting(m, claims), s.issued));
  }

  lemma OpenAndRead(s: State, k: nat, m: Mutation, claims: Option<Claims>) returns (steps: seq<Step>, tx: Tx)
    requires k !in s.txs && Admit(m, claims).Success?
    ensures tx == AfterDecision(s.committed, Starting(m, claims))
    ensures Reached(s, k, steps, tx, s.issued)
  {
    hide Decide, Admit;
    var start := Starting(m, claims);
    steps := Opens(s, k, m, claims);
    tx := AfterDecision(s.committed, start);
    assert s.txs[k := start][k := tx] == s.txs[k := tx];
    steps := Advance(s, steps, Read(k), At(s, k, tx, s.issued));
  }

  /** What a plan looks like. */
  lemma PlanShape(t: Tables, m: Mutation)
    ensures match Decide(t, m)
      case Success(NewRow(insert)) => Mints(insert) && !m.DeleteUser?
      case Success(OnRow(_, todo)) => OnlyDeletes(m, todo)
      case Failure(e) => m.DeleteUser? ==> !IsUserNotFound(e)
  {
  }

  /** Reads and writes of a mutation alone give what Work says. */
  lemma WorkRuns(s: State, k: nat, m: Mutation, claims: Option<Claims>, ids: nat -> Uuid, n: nat)
    returns (steps: seq<Step>, end: Tx, all: set<Uuid>)
    requires k !in s.txs && Admit(m, claims).Success?
    requires Alone(s, k) && IdsOf(s.committed) <= s.issued && NewIds(ids, n, s.issued, NO_WRITES)
    ensures Reached(s, k, steps, end, all)
    ensures end.mutation == m && end.actor == Admit(m, claims).value
    ensures match Work(s.committed, m, ids, n)
      case Success((t, target)) =>
        && end.phase == Running(target, []) && View(s.committed, end.delta) == t && end.delta.audit == []
      case Failure(e) => end.delta == NO_WRITES && end.phase == Ending(m, e)
  {
    hide Decide, Admit, View, Exec, NewIds, RunTodo, Reached, Alone;
    PlanShape(s.committed, m);
    ViewOfNothing(s.committed);
    steps, end := OpenAndRead(s, k, m, claims);
    all := s.issued;
    match Decide(s.committed, m)
    case Failure(_) =>
    case Success(NewRow(_)) => steps, end, all := InsertRuns(s, k, steps, end, ids, n);
    case Success(OnRow(_, _)) => steps, end, all := AllTodoRuns(s, k, steps, end, s.issued, ids, n);
  }

  /** The audit row is appended to what the transaction sees. */
  lemma LogAppends(c: Tables, tx: Tx, target: Uuid)
    requires tx.delta.audit == []
    ensures var m := tx.mutation;
      match AppendAudit(View(c, tx.delta), EntityOf(m), LoggedId(m, target), ActionOf(m), tx.actor)
      case Success(t) =>
        AfterLog(tx, target).phase == Logged(target) && View(c, AfterLog(tx, target).delta) == t
      case Failure(reason) =>
        AfterLog(tx, target) == RolledBack(tx, Failed(Operation(Operation(DatabaseError(reason)))))
  {
  }

  lemma Finishes(s: State, k: nat, before: seq<Step>, tx: Tx, issued: set<Uuid>) returns (steps: seq<Step>)
    requires Reached(s, k, before, tx, issued) && tx.phase.Running? && tx.phase.todo == [] && tx.delta.audit == []
    ensures OnlyOf(steps, k, tx.mutation) && Legal(s, steps) && k in Final(s, steps).txs
    ensures var m := tx.mutation;
      match AppendAudit(View(s.committed, tx.delta), EntityOf(m), LoggedId(m, tx.phase.target), ActionOf(m), tx.actor)
      case Success(t) =>
        Final(s, steps).committed == t && Final(s, steps).txs[k].phase == Finished(tx.phase.target)
      case Failure(reason) =>
        && Final(s, steps).committed == s.committed
        && Final(s, steps).txs[k].phase == Failed(Operation(Operation(DatabaseError(reason))))
  {
    MutationKept(s.committed, tx, 0, {});
    hide View, AfterLog, AppendAudit, Legal, Final, OnlyOf;
    LogAppends(s.committed, tx, tx.phase.target);
    var logged := AfterLog(tx, tx.phase.target);
    steps := LogRuns(s, k, before, tx, issued);
    if logged.phase.Logged? {
      steps := CommitRuns(s, k, steps, logged, issued);
    }
  }

  lemma LogRuns(s: State, k: nat, before: seq<Step>, tx: Tx, issued: set<Uuid>) returns (steps: seq<Step>)
    requires Reached(s, k, before, tx, issued) && tx.phase.Running? && tx.phase.todo == []
    ensures Reached(s, k, steps, AfterLog(tx, tx.phase.target), issued)
  {
    MutationKept(s.committed, tx, 0, {});
    LogStep(s, k, tx, issued);
    hide AfterLog, At, Enabled, After, Legal, Final;
    steps := Advance(s, before, Log(k), At(s, k, AfterLog(tx, tx.phase.target), issued));
  }

  lemma LogStep(s: State, k: nat, tx: Tx, issued: set<Uuid>)
    requires tx.phase.Running? && tx.phase.todo == []
    ensures var t := At(s, k, tx, issued);
      Enabled(t, Log(k)) && After(t, Log(k)) == At(s, k, AfterLog(tx, tx.phase.target), issued)
  {
    hide AfterLog;
    var logged := AfterLog(tx, tx.phase.target);
    assert s.txs[k := tx][k := logged] == s.txs[k := logged];
  }

  lemma CommitRuns(s: State, k: nat, before: seq<Step>, tx: Tx, issued: set<Uuid>) returns (steps: seq<Step>)
    requires Reached(s, k, before, tx, issued) && tx.phase.Logged?
    ensures OnlyOf(steps, k, tx.mutation) && Legal(s, steps) && k in Final(s, steps).txs
    ensures Final(s, steps).committed == View(s.committed, tx.delta)
    ensures Final(s, steps).txs[k].phase == Finished(tx.phase.target)
  {
    hide View, AfterCommit, Enabled, After, Legal, Final;
    CommitStep(s, k, tx, issued);
    steps := Advance(s, before, Commit(k), AfterCommit(At(s, k, tx, issued), k));
  }

  lemma CommitStep(s: State, k: nat, tx: Tx, issued: set<Uuid>)
    requires tx.phase.Logged?
    ensures var t := At(s, k, tx, issued);
      && Enabled(t, Commit(k)) && After(t, Commit(k)) == AfterCommit(t, k)
      && AfterCommit(t, k).committed == View(s.committed, tx.delta)
      && k in AfterCommit(t, k).txs && AfterCommit(t, k).txs[k].phase == Finished(tx.phase.target)
  {
    hide View, InsertedRules;
  }

  /** A run of one transaction has no other. */
  lemma {:induction false} OnlyTxOf(s: State, k: nat, m: Mutation, steps: seq<Step>)
    requires s.txs == map[] && Legal(s, steps) && OnlyOf(steps, k, m)
    ensures Final(s, steps).txs.Keys <= {k}
    decreases |steps|
  {
    if steps != [] {
      var init := steps[..|steps| - 1];
      assert forall i :: 0 <= i < |init| ==> init[i] == steps[i];
      OnlyTxOf(s, k, m, init);
      assert OfTx(steps[|steps| - 1], k, m);
    }
  }

  /** An id above all these. */
  lemma {:induction false} Above(ids: set<Uuid>) returns (bound: nat)
    ensures forall x :: x in ids ==> x < bound
    decreases |ids|
  {
    if ids == {} {
      bound := 0;
    } else {
      var x :| x in ids;
      bound := Above(ids - {x});
      assert forall y :: y in ids ==> y == x || y in ids - {x};
      bound := if bound <= x then x + 1 else bound;
    }
  }

  lemma IdsAbove(issued: set<Uuid>) returns (ids: nat -> Uuid)
    ensures NewIds(ids, 0, issued, NO_WRITES)
  {
    var bound := Above(issued);
    ids := (i: nat) => bound + i;
  }

  const SOME_ADMIN := Some(Claims(Canonical(0), Admin))

  lemma AdminAdmitted(m: Mutation)
    ensures Admit(m, SOME_ADMIN) == Success(Canonical(0))
  {
  }

  /** Uninterrupted, a mutation ends as the serial outcome says. */
  lemma SoloRun(s: State, k: nat, m: Mutation, claims: Option<Claims>, ids: nat -> Uuid, n: nat)
    returns (steps: seq<Step>)
    requires k !in s.txs && Admit(m, claims).Success?
    requires Alone(s, k) && IdsOf(s.committed) <= s.issued && NewIds(ids, n, s.issued, NO_WRITES)
    ensures OnlyOf(steps, k, m) && Legal(s, steps) && k in Final(s, steps).txs
    ensures match Serial(s.committed, m, Admit(m, claims).value, ids, n)
      case Committed(t, _) => Final(s, steps).committed == t && Final(s, steps).txs[k].phase.Finished?
      case NothingDeleted => Final(s, steps).committed == s.committed && Final(s, steps).txs[k].phase == NothingThere
      case Refused(e) => Final(s, steps).committed == s.committed && Final(s, steps).txs[k].phase == Failed(e)
  {
    hide Admit, Work, View, AppendAudit, Legal, Final, NewIds, Alone;
    var end, all;
    steps, end, all := WorkRuns(s, k, m, claims, ids, n);
    if Work(s.committed, m, ids, n).Success? {
      steps := Finishes(s, k, steps, end, all);
    }
  }

  // ---------------------------------------------------------------- getAssignment

  /** The call as it stands at the end: an answer and the tables it leaves, or its error. */
  ghost predicate CallEnds(s: State, steps: seq<Step>, n: nat, r: Result<(Tables, Variant), Error>)
    requires Legal(s, steps)
  {
    var f := Final(s, steps);
    && n in f.calls
    && match r
       case Success((t, v)) => f.committed == t && f.calls[n].stage.Answered? && f.calls[n].stage.variant == v
       case Failure(e) => f.committed == s.committed && f.calls[n].stage == Stage.Rejected(e)
  }

  function CallAt(s: State, n: nat, call: Call): State {
    s.(calls := s.calls[n := call])
  }

  lemma CallAtTwice(s: State, n: nat, x: Call, y: Call)
    ensures CallAt(CallAt(s, n, x), n, y) == CallAt(s, n, y)
  {
    assert s.calls[n := x][n := y] == s.calls[n := y];
  }

  lemma AskRuns(s: State, n: nat, user: IdText, key: string, environment: string) returns (steps: seq<Step>)
    requires n !in s.calls
    ensures Legal(s, steps) && Final(s, steps) == CallAt(s, n, Call(user, key, environment, AskStage(user)))
  {
    steps := Advance(s, [], Ask(n, user, key, environment), CallAt(s, n, Call(user, key, environment, AskStage(user))));
  }

  /** The reads of a call, as long as none of them ends it. */
  lemma ReadsRun(s: State, n: nat, user: IdText, key: string, environment: string, e: Uuid) returns (steps: seq<Step>)
    requires n !in s.calls && user != EMPTY_ID
    requires FindExperiment(s.committed.experiments, key, environment) == Some(e)
    requires VariantsOf(s.committed.variants, e) != []
    ensures Legal(s, steps)
    ensures Final(s, steps)
      == CallAt(s, n, Call(user, key, environment, HasVariants(e, VariantsOf(s.committed.variants, e))))
  {
    hide FindExperiment, VariantsOf, Legal, Final;
    var call := Call(user, key, environment, Asked);
    var loaded := call.(stage := HasExperiment(e));
    var listed := call.(stage := HasVariants(e, VariantsOf(s.committed.variants, e)));
    steps := AskRuns(s, n, user, key, environment);
    CallAtTwice(s, n, call, loaded);
    steps := Advance(s, steps, LoadExperiment(n), CallAt(s, n, loaded));
    CallAtTwice(s, n, loaded, listed);
    steps := Advance(s, steps, LoadVariants(n), CallAt(s, n, listed));
  }

  /** A call that ends at its first or second read. */
  lemma EarlyEnd(s: State, n: nat, user: IdText, key: string, environment: string) returns (steps: seq<Step>)
    requires n !in s.calls
    requires user == EMPTY_ID || match FindExperiment(s.committed.experiments, key, environment)
      case None => true
      case Some(e) => VariantsOf(s.committed.variants, e) == []
    ensures Legal(s, steps) && CallEnds(s, steps, n, Serve(s.committed, s.hash, user, key, environment))
  {
    hide FindExperiment, VariantsOf, Legal, Final;
    var call := Call(user, key, environment, AskStage(user));
    steps := AskRuns(s, n, user, key, environment);
    if user != EMPTY_ID {
      var loaded := call.(stage := AfterLoadExperiment(s.committed, call));
      CallAtTwice(s, n, call, loaded);
      steps := Advance(s, steps, LoadExperiment(n), CallAt(s, n, loaded));
      if loaded.stage.HasExperiment? {
        var end := loaded.(stage := Stage.Rejected(NoVariantsFound(key, environment)));
        CallAtTwice(s, n, loaded, end);
        steps := Advance(s, steps, LoadVariants(n), CallAt(s, n, end));
      }
    }
  }

  /** Uninterrupted, a call ends as the serial one. */
  lemma SoloCall(s: State, n: nat, user: IdText, key: string, environment: string) returns (steps: seq<Step>)
    requires n !in s.calls
    ensures Legal(s, steps) && CallEnds(s, steps, n, Serve(s.committed, s.hash, user, key, environment))
  {
    hide FindExperiment, VariantsOf, Legal, Final, Upsert, Assigned, VariantIndex;
    var found := FindExperiment(s.committed.experiments, key, environment);
    if user == EMPTY_ID || found == None || VariantsOf(s.committed.variants, found.value) == [] {
      steps := EarlyEnd(s, n, user, key, environment);
    } else {
      var e, list := found.value, VariantsOf(s.committed.variants, found.value);
      var listed := Call(user, key, environment, HasVariants(e, list));
      steps := ReadsRun(s, n, user, key, environment, e);
      var read := listed.(stage := AfterLoadAssignment(CallAt(s, n, listed), listed, e, list));
      CallAtTwice(s, n, listed, read);
      steps := Advance(s, steps, LoadAssignment(n), CallAt(s, n, read));
      if read.stage.Unassigned? {
        steps := Advance(s, steps, Store(n), AfterStore(CallAt(s, n, read), n));
      }
    }
  }
}
