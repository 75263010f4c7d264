/**
 Updates of one flag that clash have a run that leaves the flag with a rule of another type
 than its strategy; so the clash is the exact condition under which they can do harm.
 */
module ClashRuns {
  import opened Wrappers
  import opened Schema
  import opened Statements
  import opened FlagRules
  import opened Protocol
  import opened FlagPlans
  import opened Transactions
  import opened Weights
  import opened Interleaving
  import opened Isolation
  import opened Reachable
  import opened AuditTrail
  import opened Evaluation
  import opened Clashes
  import opened Contests
  import opened Solo

  /** Every step is one of transaction j or k, which carry out these mutations. */
  ghost predicate Both(steps: seq<Step>, j: nat, m: Mutation, k: nat, m': Mutation) {
    forall i :: 0 <= i < |steps| ==> OfTx(steps[i], j, m) || OfTx(steps[i], k, m')
  }

  /** A run of the two transactions from s to t. */
  ghost predicate Leads(s: State, steps: seq<Step>, t: State, j: nat, m: Mutation, k: nat, m': Mutation) {
    Legal(s, steps) && Final(s, steps) == t && Both(steps, j, m, k, m')
  }

  lemma Continue(
    s: State, steps: seq<Step>, t: State, more: seq<Step>, end: State, j: nat, m: Mutation, k: nat, m': Mutation)
    returns (all: seq<Step>)
    requires Leads(s, steps, t, j, m, k, m') && Legal(t, more) && Final(t, more) == end
    requires OnlyOf(more, j, m) || OnlyOf(more, k, m')
    ensures Leads(s, all, end, j, m, k, m')
  {
    Joins(s, steps, more);
    all := steps + more;
    hide Legal, Final, OfTx;
  }

  // ---------------------------------------------------------------- one update carried through

  /** An update waiting to run its whole plan. */
  function Planned(change: UpdateFlagInput, f: Uuid, row: FlagRow): Tx
    requires Admit(Mutation.UpdateFlag(change), SOME_ADMIN).Success?
  {
    Starting(Mutation.UpdateFlag(change), SOME_ADMIN).(
      phase := Running(f, RulesTodo(f, change.rules) + [Statement.UpdateFlag(f, row)]))
  }

  /** Flag f, as found by the update, and the row the update writes. */
  ghost predicate Aimed(c: Tables, change: UpdateFlagInput, f: Uuid, row: FlagRow) {
    && FindFlag(c.flags, change.key, EnvironmentOf(change)) == Some(f)
    && EditedFlag(c.flags[f], change) == Success(row)
  }

  lemma ReadsPlan(s: State, k: nat, change: UpdateFlagInput, f: Uuid, row: FlagRow) returns (steps: seq<Step>)
    requires k !in s.txs && Aimed(s.committed, change, f, row)
    ensures Admit(Mutation.UpdateFlag(change), SOME_ADMIN).Success?
    ensures Reached(s, k, steps, Planned(change, f, row), s.issued)
  {
    var m := Mutation.UpdateFlag(change);
    AdminAdmitted(m);
    DecidesUpdate(s.committed, change, f, row);
    hide Admit, Decide, Reached, FindFlag, EditedFlag, RulesTodo;
    var tx;
    steps, tx := OpenAndRead(s, k, m, SOME_ADMIN);
  }

  lemma RulesTodoFits(t: Tables, f: Uuid, rules: Option<seq<Option<RuleInput>>>, ids: nat -> Uuid)
    requires f in t.flags
    ensures RunTodo(t, RulesTodo(f, rules), ids, 0).Success?
  {
    if rules.Some? {
      ReplacementFits(t, f, rules.value, ids, 0);
    }
  }

  /** What the whole plan of an update makes of flags and rules. */
  ghost predicate Updated(c: Tables, c': Tables, change: UpdateFlagInput, ids: nat -> Uuid) {
    var w := Work(c, Mutation.UpdateFlag(change), ids, 0);
    w.Success? && c'.flags == w.value.0.flags && c'.rules == w.value.0.rules
  }

  lemma WholePlanRuns(c: Tables, change: UpdateFlagInput, f: Uuid, row: FlagRow, ids: nat -> Uuid)
    requires Consistent(c) && Aimed(c, change, f, row)
    ensures Work(c, Mutation.UpdateFlag(change), ids, 0).Success?
    ensures RunTodo(c, RulesTodo(f, change.rules) + [Statement.UpdateFlag(f, row)], ids, 0)
      == Success(Work(c, Mutation.UpdateFlag(change), ids, 0).value.0)
  {
    hide Consistent, FindFlag, RunTodo, Exec, RulesTodo;
    RulesTodoFits(c, f, change.rules, ids);
    UpdateStages(c, change, f, ids, 0, 0);
    DecidesUpdate(c, change, f, row);
    hide Decide, EditedFlag;
  }

  /** What the transaction's commit leaves. */
  function CommittedFrom(t: State, j: nat, logged: Tx, issued: set<Uuid>): State
    requires logged.phase.Logged?
  {
    AfterCommit(At(t, j, logged, issued), j)
  }

  lemma CommittedIs(t: State, j: nat, logged: Tx, issued: set<Uuid>)
    requires logged.phase.Logged? && j in t.txs
    ensures var end := CommittedFrom(t, j, logged, issued);
      && end.committed == View(t.committed, logged.delta) && end.order == t.order + [j]
      && end.txs.Keys == t.txs.Keys && end.txs[j].phase.Finished?
      && forall i :: i in t.txs && i != j ==>
           end.txs[i] == t.txs[i].(news := t.txs[i].news + InsertedRules(logged.delta))
  {
    hide View, InsertedRules;
  }

  lemma NewRulesAreNews(c: Tables, d: Delta)
    ensures View(c, d).rules.Keys - c.rules.Keys <= InsertedRules(d)
  {
  }

  lemma LoggedView(c: Tables, tx: Tx, f: Uuid)
    requires tx.actor == Canonical(0)
    ensures AfterLog(tx, f).phase == Logged(f) && AfterLog(tx, f).mutation == tx.mutation
    ensures View(c, AfterLog(tx, f).delta).flags == View(c, tx.delta).flags
    ensures View(c, AfterLog(tx, f).delta).rules == View(c, tx.delta).rules
  {
  }

  lemma StandsAt(t: State, j: nat)
    requires j in t.txs
    ensures At(t, j, t.txs[j], t.issued) == t && Reached(t, j, [], t.txs[j], t.issued)
  {
    assert t.txs[j := t.txs[j]] == t.txs;
  }

  lemma CommitsFrom(t: State, j: nat, logged: Tx, issued: set<Uuid>)
    requires logged.phase.Logged?
    ensures Enabled(At(t, j, logged, issued), Commit(j))
    ensures After(At(t, j, logged, issued), Commit(j)) == CommittedFrom(t, j, logged, issued)
  {
    hide AfterCommit;
  }

  /** What is left of an update's plan runs, is logged and commits, when no other transaction holds anything. */
  lemma RestRuns(t: State, j: nat, before: seq<Step>, tx: Tx, ids: nat -> Uuid)
    returns (steps: seq<Step>, logged: Tx, end: State)
    requires j in t.txs && Alone(t, j) && Reached(t, j, before, tx, t.issued)
    requires tx.phase.Running? && tx.mutation.UpdateFlag? && tx.actor == Canonical(0) && tx.delta.audit == []
    requires IdsOf(t.committed) <= t.issued && NewIds(ids, 0, t.issued, tx.delta)
    requires RunTodo(View(t.committed, tx.delta), tx.phase.todo, ids, 0).Success?
    ensures Legal(t, steps) && Final(t, steps) == end && OnlyOf(steps, j, tx.mutation)
    ensures end.committed == View(t.committed, logged.delta) && end.order == t.order + [j]
    ensures var v := RunTodo(View(t.committed, tx.delta), tx.phase.todo, ids, 0).value;
      end.committed.flags == v.flags && end.committed.rules == v.rules
    ensures end.txs.Keys == t.txs.Keys && end.txs[j].phase.Finished?
    ensures forall i :: i in t.txs && i != j ==>
      end.txs[i] == t.txs[i].(news := t.txs[i].news + InsertedRules(logged.delta))
  {
    hide NewIds, Alone, RunTodo, IdsOf, View, AfterLog, At, CommittedFrom, InsertedRules, Enabled, After, Legal, Final;
    var ran, all;
    steps, ran, all := AllTodoRuns(t, j, before, tx, t.issued, ids, 0);
    var f := tx.phase.target;
    steps := LogRuns(t, j, steps, ran, all);
    LoggedView(t.committed, ran, f);
    logged := AfterLog(ran, f);
    CommittedIs(t, j, logged, all);
    CommitsFrom(t, j, logged, all);
    end := CommittedFrom(t, j, logged, all);
    steps := Advance(t, steps, Commit(j), end);
  }

  /** A planned update runs to its commit. */
  lemma CarriesThrough(t: State, j: nat, change: UpdateFlagInput, f: Uuid, row: FlagRow, ids: nat -> Uuid)
    returns (steps: seq<Step>, end: State)
    requires Admit(Mutation.UpdateFlag(change), SOME_ADMIN).Success?
    requires j in t.txs && t.txs[j] == Planned(change, f, row) && Alone(t, j)
    requires Consistent(t.committed) && Aimed(t.committed, change, f, row)
    requires IdsOf(t.committed) <= t.issued && NewIds(ids, 0, t.issued, NO_WRITES)
    ensures Legal(t, steps) && Final(t, steps) == end && OnlyOf(steps, j, Mutation.UpdateFlag(change))
    ensures Updated(t.committed, end.committed, change, ids)
    ensures end.txs.Keys == t.txs.Keys && end.txs[j].phase.Finished? && end.order == t.order + [j]
    ensures forall i :: i in t.txs && i != j ==>
      && end.txs[i] == t.txs[i].(news := end.txs[i].news)
      && end.committed.rules.Keys - t.committed.rules.Keys <= end.txs[i].news
  {
    AdminAdmitted(Mutation.UpdateFlag(change));
    assert t.txs[j].actor == Canonical(0);
    hide NewIds, Aimed, RunTodo, IdsOf, Admit, RulesTodo, View, Consistent, Work, Alone, InsertedRules, Legal, Final,
      Reached, OnlyOf;
    StandsAt(t, j);
    ViewOfNothing(t.committed);
    WholePlanRuns(t.committed, change, f, row, ids);
    var logged;
    steps, logged, end := RestRuns(t, j, [], t.txs[j], ids);
    NewRulesAreNews(t.committed, logged.delta);
  }

  /** The tables an update leaves: its row, and the rules it brings. */
  lemma UpdateBrings(c: Tables, c': Tables, change: UpdateFlagInput, f: Uuid, row: FlagRow, ids: nat -> Uuid)
    requires Consistent(c) && Aimed(c, change, f, row) && Updated(c, c', change, ids)
    requires forall i, j :: 0 <= i < j ==> ids(i) != ids(j)
    ensures c'.flags == c.flags[f := row] && FlagKeyOf(row) == FlagKeyOf(c.flags[f])
    ensures NewRows(f, change.rules) != [] ==>
      ids(0) in c'.rules && c'.rules[ids(0)].flag == f && StrategyOf(c'.rules[ids(0)].kind) == row.strategy
  {
    var current := c.flags[f].strategy;
    var before := RunTodo(c, RulesTodo(f, change.rules), ids, 0);
    hide Consistent, FindFlag, RunTodo, ResolveStrategyForUpdate, Work, Exec;
    UpdateStages(c, change, f, ids, 0, 0);
    RulesTodoFits(c, f, change.rules, ids);
    RulesTodoKeepsFlags(c, f, change.rules, ids, 0);
    RowApplied(before.value, f, row, 0);
    if NewRows(f, change.rules) != [] {
      var list := change.rules.value;
      hide RuleRows, Numbered;
      ReplacementNumbers(c, f, list, ids, 0);
      NumberedHas(RuleRows(f, list), ids, 0, 0);
      RowsAskForStrategy(current, list, f);
      assert RuleRows(f, list)[0].flag == f;
    }
  }

  // ---------------------------------------------------------------- the update that misses them

  /** What such an update still has to run once it has deleted rules, or has none to delete. */
  function RestOf(change: UpdateFlagInput, f: Uuid, row: FlagRow): seq<Statement> {
    InsertsOf(NewRows(f, change.rules)) + [Statement.UpdateFlag(f, row)]
  }

  /** It has deleted rules only, and none that it has not seen. */
  ghost predicate DeletedSome(c: Tables, d: Delta, news: set<Uuid>) {
    && d == NO_WRITES.(rules := d.rules)
    && forall r :: r in d.rules ==> d.rules[r] == None && r in c.rules && r !in news
  }

  lemma PlanParts(change: UpdateFlagInput, f: Uuid, row: FlagRow)
    ensures var todo := RulesTodo(f, change.rules) + [Statement.UpdateFlag(f, row)];
      if change.rules.None? then todo == RestOf(change, f, row)
      else todo[0] == DeleteRules(f) && todo[1..] == RestOf(change, f, row)
  {
    hide RuleRows;
    if change.rules.None? {
      assert InsertsOf([]) == [];
    }
  }

  lemma DeleteMisses(c: Tables, tx: Tx, f: Uuid, rest: seq<Statement>)
    requires tx.phase == Running(f, [DeleteRules(f)] + rest) && tx.delta == NO_WRITES
    ensures var next := AfterStatement(c, tx, 0, tx.news);
      && next == tx.(delta := next.delta, phase := Running(f, rest))
      && DeletedSome(c, next.delta, tx.news)
  {
    ViewOfNothing(c);
    assert ([DeleteRules(f)] + rest)[1..] == rest;
  }

  /**
   The update k, which has read before the other committed, deletes rules. Its DELETE looks at
   the table as it was before that commit, so it does not find the rules that are news to it.
   */
  lemma MissesNews(t: State, k: nat, change: UpdateFlagInput, f: Uuid, row: FlagRow)
    returns (steps: seq<Step>, tx: Tx)
    requires Admit(Mutation.UpdateFlag(change), SOME_ADMIN).Success? && Alone(t, k)
    requires k in t.txs && t.txs[k] == Planned(change, f, row).(news := t.txs[k].news)
    ensures Reached(t, k, steps, tx, t.issued)
    ensures tx == t.txs[k].(delta := tx.delta, phase := Running(f, RestOf(change, f, row)))
    ensures DeletedSome(t.committed, tx.delta, t.txs[k].news)
  {
    hide Admit, Reached, Alone, RestOf, RulesTodo, AfterStatement;
    tx := t.txs[k];
    StandsAt(t, k);
    PlanParts(change, f, row);
    steps := [];
    if change.rules.Some? {
      AloneIsFree(t, k);
      DeleteMisses(t.committed, tx, f, RestOf(change, f, row));
      assert tx.phase.todo == [DeleteRules(f)] + RestOf(change, f, row);
      steps := OneStatement(t, k, [], tx, t.issued, 0, tx.news);
      tx := AfterStatement(t.committed, tx, 0, tx.news);
    }
  }

  lemma SeesMissed(c: Tables, d: Delta, news: set<Uuid>)
    requires DeletedSome(c, d, news)
    ensures View(c, d).flags == c.flags
    ensures forall r :: r in news && r in c.rules ==> r in View(c, d).rules && View(c, d).rules[r] == c.rules[r]
  {
  }

  lemma StillNew(c: Tables, d: Delta, news: set<Uuid>, ids: nat -> Uuid, issued: set<Uuid>)
    requires DeletedSome(c, d, news) && IdsOf(c) <= issued && NewIds(ids, 0, issued, NO_WRITES)
    ensures NewIds(ids, 0, issued, d)
  {
  }

  /** Its inserts and its row are not refused, and they leave other rules alone. */
  lemma RestFits(v: Tables, change: UpdateFlagInput, f: Uuid, row: FlagRow, ids: nat -> Uuid, r: Uuid)
    requires f in v.flags && UniqueBy(v.flags, FlagKeyOf) && FlagKeyOf(row) == FlagKeyOf(v.flags[f])
    requires r in v.rules && forall i: nat :: ids(i) != r
    ensures var end := RunTodo(v, RestOf(change, f, row), ids, 0);
      && end.Success? && f in end.value.flags && end.value.flags[f] == row
      && r in end.value.rules && end.value.rules[r] == v.rules[r]
  {
    var rows := NewRows(f, change.rules);
    InsertsFit(v, f, rows, ids, 0);
    InsertsNumber(v, rows, ids, 0);
    NumberedOnly(rows, ids, 0, r);
    RunThenLast(v, InsertsOf(rows), Statement.UpdateFlag(f, row), ids, 0, 0);
    hide RunTodo, Exec, NewRows, Numbered, InsertsOf;
    var v' := RunTodo(v, InsertsOf(rows), ids, 0).value;
    SameKeyFits(v, v', f, row, 0);
    RowApplied(v', f, row, 0);
  }

  /** The update k commits its row over a rule it has missed. */
  lemma CommitsOver(t: State, k: nat, change: UpdateFlagInput, f: Uuid, row: FlagRow, r: Uuid)
    returns (steps: seq<Step>, end: State)
    requires Admit(Mutation.UpdateFlag(change), SOME_ADMIN).Success? && Alone(t, k) && Good(t)
    requires k in t.txs && t.txs[k] == Planned(change, f, row).(news := t.txs[k].news)
    requires f in t.committed.flags && FlagKeyOf(t.committed.flags[f]) == FlagKeyOf(row)
    requires r in t.committed.rules && r in t.txs[k].news && t.committed.rules[r].flag == f
    requires StrategyOf(t.committed.rules[r].kind) != row.strategy
    ensures Legal(t, steps) && Final(t, steps) == end && OnlyOf(steps, k, Mutation.UpdateFlag(change))
    ensures f in end.committed.flags && !FlagMatched(end.committed, f) && end.order == t.order + [k]
  {
    AdminAdmitted(Mutation.UpdateFlag(change));
    assert t.txs[k].actor == Canonical(0);
    GoodBasics(t, r);
    var ids := IdsAbove(t.issued);
    FreshIds(ids, t.issued, r);
    hide Admit, Reached, Alone, RestOf, RulesTodo, AfterStatement, Good, NewIds, View, RunTodo, DeletedSome, Legal,
      Final, OnlyOf, IdsOf, FlagKeyOf, UniqueBy;
    var tx;
    steps, tx := MissesNews(t, k, change, f, row);
    SeesMissed(t.committed, tx.delta, t.txs[k].news);
    StillNew(t.committed, tx.delta, t.txs[k].news, ids, t.issued);
    RestFits(View(t.committed, tx.delta), change, f, row, ids, r);
    DeletedLogsNothing(t.committed, tx.delta, t.txs[k].news);
    var logged;
    steps, logged, end := RestRuns(t, k, steps, tx, ids);
    assert r in end.committed.rules;
  }

  lemma GoodBasics(s: State, r: Uuid)
    requires Good(s) && r in s.committed.rules
    ensures Consistent(s.committed) && UniqueBy(s.committed.flags, FlagKeyOf)
    ensures IdsOf(s.committed) <= s.issued && r in s.issued
  {
  }

  lemma FreshIds(ids: nat -> Uuid, issued: set<Uuid>, r: Uuid)
    requires NewIds(ids, 0, issued, NO_WRITES) && r in issued
    ensures forall i: nat :: ids(i) != r
  {
  }

  lemma DeletedLogsNothing(c: Tables, d: Delta, news: set<Uuid>)
    requires DeletedSome(c, d, news)
    ensures d.audit == []
  {
  }

  // ---------------------------------------------------------------- the clash

  lemma BothPlannedAlone(s: State, j: nat, a: Tx, k: nat, b: Tx)
    requires AtRest(s) && a.delta == NO_WRITES == b.delta
    ensures Alone(At(At(s, j, a, s.issued), k, b, s.issued), j)
  {
    RestHoldsNothing(s, j);
    hide Good;
  }

  lemma AloneAfterCommit(t: State, end: State, j: nat, k: nat)
    requires Alone(t, j) && Good(end) && end.txs.Keys == t.txs.Keys && j in end.txs && end.txs[j].phase.Finished?
    requires forall i :: i in t.txs && i != j ==> end.txs[i] == t.txs[i].(news := end.txs[i].news)
    ensures Alone(end, k)
  {
    hide Good;
    TxIsOk(end, j);
    hide RunningOk, AuditFor;
  }

  /** Both transactions have read. */
  ghost predicate BothHaveRead(
    s: State, t: State, f: Uuid, j: nat, a: UpdateFlagInput, row: FlagRow, k: nat, b: UpdateFlagInput, row': FlagRow)
  {
    && Admit(Mutation.UpdateFlag(a), SOME_ADMIN).Success? && Admit(Mutation.UpdateFlag(b), SOME_ADMIN).Success?
    && t == At(At(s, j, Planned(a, f, row), s.issued), k, Planned(b, f, row'), s.issued)
  }

  lemma ReadBoth(
    s: State, f: Uuid, j: nat, a: UpdateFlagInput, row: FlagRow, k: nat, b: UpdateFlagInput, row': FlagRow)
    returns (steps: seq<Step>, t: State)
    requires AtRest(s) && j !in s.txs && k !in s.txs && j != k
    requires Aimed(s.committed, a, f, row) && Aimed(s.committed, b, f, row')
    ensures Leads(s, steps, t, j, Mutation.UpdateFlag(a), k, Mutation.UpdateFlag(b))
    ensures BothHaveRead(s, t, f, j, a, row, k, b, row') && Alone(t, j)
  {
    hide AtRest, Aimed, Admit, Legal, Final, Alone, Leads, RulesTodo;
    var ma, mb := Mutation.UpdateFlag(a), Mutation.UpdateFlag(b);
    var first := ReadsPlan(s, j, a, f, row);
    var s1 := At(s, j, Planned(a, f, row), s.issued);
    var second := ReadsPlan(s1, k, b, f, row');
    t := At(s1, k, Planned(b, f, row'), s.issued);
    BothPlannedAlone(s, j, Planned(a, f, row), k, Planned(b, f, row'));
    StartLeads(s, first, s1, j, ma, k, mb);
    steps := Continue(s, first, s1, second, t, j, ma, k, mb);
  }

  lemma AfterReading(
    s: State, t: State, f: Uuid, j: nat, a: UpdateFlagInput, row: FlagRow, k: nat, b: UpdateFlagInput, row': FlagRow)
    requires BothHaveRead(s, t, f, j, a, row, k, b, row') && j != k
    ensures j in t.txs && t.txs[j] == Planned(a, f, row) && k in t.txs && t.txs[k] == Planned(b, f, row')
    ensures t.committed == s.committed && t.issued == s.issued && t.order == s.order
  {
    hide Planned, Admit;
  }

  /** Both have read; then the one that brings rules is carried through. */
  lemma OneOvertakes(
    s: State, f: Uuid, j: nat, a: UpdateFlagInput, row: FlagRow, k: nat, b: UpdateFlagInput, row': FlagRow)
    returns (steps: seq<Step>, end: State, r: Uuid)
    requires AtRest(s) && j !in s.txs && k !in s.txs && j != k && NewRows(f, a.rules) != []
    requires Aimed(s.committed, a, f, row) && Aimed(s.committed, b, f, row')
    ensures Leads(s, steps, end, j, Mutation.UpdateFlag(a), k, Mutation.UpdateFlag(b)) && Good(end)
    ensures Admit(Mutation.UpdateFlag(b), SOME_ADMIN).Success? && Alone(end, k) && end.order == s.order + [j]
    ensures k in end.txs && end.txs[k] == Planned(b, f, row').(news := end.txs[k].news)
    ensures end.committed.flags == s.committed.flags[f := row] && FlagKeyOf(row) == FlagKeyOf(s.committed.flags[f])
    ensures r in end.committed.rules && r in end.txs[k].news && end.committed.rules[r].flag == f
    ensures StrategyOf(end.committed.rules[r].kind) == row.strategy
  {
    hide AtRest, NewIds, Aimed, IdsOf, Admit, Consistent, Updated, Legal, Final, NewRows, Good, Alone, Leads,
      Planned, FlagKeyOf, StrategyOf, OnlyOf;
    var t, third;
    steps, t := ReadBoth(s, f, j, a, row, k, b, row');
    AfterReading(s, t, f, j, a, row, k, b, row');
    var ids := IdsAbove(s.issued);
    RestHoldsNothing(s, j);
    NewIdIsNew(ids, s);
    third, end := CarriesThrough(t, j, a, f, row, ids);
    steps := Continue(s, steps, t, third, end, j, Mutation.UpdateFlag(a), k, Mutation.UpdateFlag(b));
    GoodAtEnd(s, steps, end, j, Mutation.UpdateFlag(a), k, Mutation.UpdateFlag(b));
    UpdateBrings(s.committed, end.committed, a, f, row, ids);
    AloneAfterCommit(t, end, j, k);
    r := ids(0);
  }

  lemma NewIdIsNew(ids: nat -> Uuid, s: State)
    requires NewIds(ids, 0, s.issued, NO_WRITES) && IdsOf(s.committed) <= s.issued
    ensures ids(0) !in s.committed.rules && forall i, j :: 0 <= i < j ==> ids(i) != ids(j)
  {
  }

  lemma StartLeads(s: State, steps: seq<Step>, t: State, j: nat, m: Mutation, k: nat, m': Mutation)
    requires Legal(s, steps) && Final(s, steps) == t && OnlyOf(steps, j, m)
    ensures Leads(s, steps, t, j, m, k, m')
  {
    hide Legal, Final, OfTx;
  }

  lemma GoodAtEnd(s: State, steps: seq<Step>, t: State, j: nat, m: Mutation, k: nat, m': Mutation)
    requires AtRest(s) && Leads(s, steps, t, j, m, k, m')
    ensures Good(t)
  {
    hide Good, Legal, Final;
    GoodFrom(s, steps);
  }

  lemma ClashRows(c: Tables, f: Uuid, a: UpdateFlagInput, b: UpdateFlagInput) returns (row: FlagRow, row': FlagRow)
    requires FindFlag(c.flags, a.key, EnvironmentOf(a)) == Some(f) == FindFlag(c.flags, b.key, EnvironmentOf(b))
    requires ClashOneWay(c.flags[f].strategy, a, b)
    ensures Aimed(c, a, f, row) && Aimed(c, b, f, row') && row.strategy != row'.strategy
    ensures NewRows(f, a.rules) != [] && FlagKeyOf(row') == FlagKeyOf(c.flags[f])
  {
    ClashOneWayIff(c.flags[f].strategy, a, b, f);
    row, row' := EditedFlag(c.flags[f], a).value, EditedFlag(c.flags[f], b).value;
    hide ClashOneWay, NewRows, FindFlag, ResolveStrategyForUpdate;
  }

  /**
   A clash has a run that leaves the flag unmatched: j and k have both read when j, which brings
   rules, commits; then k commits over them.
   */
  lemma ClashBreaks(s: State, f: Uuid, j: nat, a: UpdateFlagInput, k: nat, b: UpdateFlagInput)
    returns (steps: seq<Step>)
    requires AtRest(s) && j !in s.txs && k !in s.txs && j != k
    requires FindFlag(s.committed.flags, a.key, EnvironmentOf(a)) == Some(f)
    requires FindFlag(s.committed.flags, b.key, EnvironmentOf(b)) == Some(f)
    requires ClashOneWay(s.committed.flags[f].strategy, a, b)
    ensures Legal(s, steps) && Both(steps, j, Mutation.UpdateFlag(a), k, Mutation.UpdateFlag(b))
    ensures f in Final(s, steps).committed.flags && !FlagMatched(Final(s, steps).committed, f)
    ensures Final(s, steps).order == s.order + [j, k]
  {
    hide Legal, Final, Good, Aimed, AtRest, FlagMatched, NewRows, ClashOneWay, FindFlag, Both, Alone, FlagKeyOf, Admit,
      RulesTodo, EnvironmentOf, OnlyOf, StrategyOf;
    var row, row' := ClashRows(s.committed, f, a, b);
    var ma, mb := Mutation.UpdateFlag(a), Mutation.UpdateFlag(b);
    var t, r, last, end;
    steps, t, r := OneOvertakes(s, f, j, a, row, k, b, row');
    last, end := CommitsOver(t, k, b, f, row', r);
    steps := Continue(s, steps, t, last, end, j, ma, k, mb);
    assert [j] + [k] == [j, k];
  }

  // ---------------------------------------------------------------- the clash on a cleared flag

  lemma ClearingRow(c: Tables, change: UpdateFlagInput, f: Uuid) returns (row: FlagRow)
    requires Clears(change) && FindFlag(c.flags, change.key, EnvironmentOf(change)) == Some(f)
    ensures Aimed(c, change, f, row) && row.strategy == NoStrategy
  {
    row := c.flags[f].(enabled := change.enabled, strategy := NoStrategy);
  }

  lemma AloneAtRest(s: State, k: nat, tx: Tx)
    requires AtRest(s)
    ensures Alone(At(s, k, tx, s.issued), k)
  {
    RestHoldsNothing(s, k);
    hide Good;
  }

  lemma RestsAgain(s: State, steps: seq<Step>, end: State, k: nat)
    requires AtRest(s) && Legal(s, steps) && Final(s, steps) == end
    requires end.txs.Keys == s.txs.Keys + {k} && end.txs[k].phase.Finished?
    requires forall i :: i in s.txs && i != k ==> end.txs[i].phase == s.txs[i].phase
    ensures AtRest(end) && Consistent(end.committed)
  {
    hide Good, Legal, Final, Consistent;
    GoodFrom(s, steps);
    forall i | i in end.txs
      ensures Ended(end.txs[i].phase)
    {
      assert i == k || end.txs[i].phase == s.txs[i].phase;
    }
    RestHoldsNothing(end, k);
  }

  /** An update that clears the flag, alone, leaves it without a strategy and nothing under way. */
  lemma ClearsAlone(s: State, f: Uuid, k: nat, change: UpdateFlagInput)
    returns (steps: seq<Step>, end: State)
    requires AtRest(s) && k !in s.txs && Clears(change)
    requires FindFlag(s.committed.flags, change.key, EnvironmentOf(change)) == Some(f)
    ensures Legal(s, steps) && Final(s, steps) == end && OnlyOf(steps, k, Mutation.UpdateFlag(change))
    ensures AtRest(end) && end.txs.Keys == s.txs.Keys + {k}
    ensures FindFlag(end.committed.flags, change.key, EnvironmentOf(change)) == Some(f)
    ensures end.committed.flags[f].strategy == NoStrategy
  {
    hide AtRest, NewIds, Aimed, IdsOf, Admit, Consistent, Updated, Good, Alone, RulesTodo, FlagKeyOf, Clears, FindFlag,
      EditedFlag, EnvironmentOf, NewRows, Enabled, After, Legal, Final, OfTx;
    var row := ClearingRow(s.committed, change, f);
    var ids := IdsAbove(s.issued);
    RestHoldsNothing(s, k);
    NewIdIsNew(ids, s);
    var first := ReadsPlan(s, k, change, f, row);
    var t := At(s, k, Planned(change, f, row), s.issued);
    AloneAtRest(s, k, Planned(change, f, row));
    var second;
    second, end := CarriesThrough(t, k, change, f, row, ids);
    Joins(s, first, second);
    steps := first + second;
    RestsAgain(s, steps, end, k);
    UpdateBrings(s.committed, end.committed, change, f, row, ids);
    FoundByKey(end.committed, f, change.key, EnvironmentOf(change));
  }

  // ---------------------------------------------------------------- the exact condition

  /** The flag's rules match its strategy in every state of every run with these updates. */
  ghost predicate AlwaysKeepsMatch(s: State, g: Contest, f: Uuid) {
    forall steps: seq<Step> :: Legal(s, steps) && RunOf(g, steps) ==> FlagMatched(Final(s, steps).committed, f)
  }

  lemma InitialRests(s: State)
    requires Initial(s)
    ensures AtRest(s)
  {
  }

  lemma BothIsRunOf(g: Contest, steps: seq<Step>, i: nat, j: nat)
    requires i < |g.changes| && j < |g.changes|
    requires Both(steps, i, Mutation.UpdateFlag(g.changes[i]), j, Mutation.UpdateFlag(g.changes[j]))
    ensures RunOf(g, steps)
  {
  }

  lemma OnlyIsRunOf(g: Contest, steps: seq<Step>, k: nat, more: seq<Step>)
    requires k < |g.changes| && OnlyOf(steps, k, Mutation.UpdateFlag(g.changes[k])) && RunOf(g, more)
    ensures RunOf(g, steps + more)
  {
  }

  lemma PairBreaks(s: State, g: Contest, f: Uuid, i: nat, j: nat) returns (steps: seq<Step>)
    requires AtRest(s) && OfOneFlag(g) && FindFlag(s.committed.flags, g.key, g.environment) == Some(f)
    requires i < |g.changes| && j < |g.changes| && i != j && i !in s.txs && j !in s.txs
    requires ClashOneWay(s.committed.flags[f].strategy, g.changes[i], g.changes[j])
    ensures Legal(s, steps) && RunOf(g, steps) && !FlagMatched(Final(s, steps).committed, f)
  {
    hide AtRest, FindFlag, ClashOneWay, Legal, Final, RunOf, Both, FlagMatched;
    steps := ClashBreaks(s, f, i, g.changes[i], j, g.changes[j]);
    BothIsRunOf(g, steps, i, j);
  }

  /** The third update clears the flag first, and then the other two clash. */
  lemma OnceClearedBreaks(s: State, g: Contest, f: Uuid, c: nat, i: nat, j: nat) returns (steps: seq<Step>)
    requires AtRest(s) && s.txs == map[] && OfOneFlag(g)
    requires FindFlag(s.committed.flags, g.key, g.environment) == Some(f)
    requires c < |g.changes| && i < |g.changes| && j < |g.changes| && c != i && c != j && i != j
    requires Clears(g.changes[c]) && ClashOneWay(NoStrategy, g.changes[i], g.changes[j])
    ensures Legal(s, steps) && RunOf(g, steps) && !FlagMatched(Final(s, steps).committed, f)
  {
    hide AtRest, FindFlag, ClashOneWay, Legal, Final, RunOf, FlagMatched, Clears, OnlyOf;
    var first, t := ClearsAlone(s, f, c, g.changes[c]);
    var second := PairBreaks(t, g, f, i, j);
    Joins(s, first, second);
    OnlyIsRunOf(g, first, c, second);
    steps := first + second;
  }

  /**
   With nothing running at the start, any number of updates of one flag, beside any mutations
   aimed elsewhere and any calls, keep its rules matched in every run if and only if no two of
   them clash, on the strategy the flag has or once a third has cleared it.
   */
  lemma KeepMatchIff(s: State, g: Contest, f: Uuid)
    requires Initial(s) && OfOneFlag(g) && FindFlag(s.committed.flags, g.key, g.environment) == Some(f)
    requires FlagMatched(s.committed, f)
    ensures AlwaysKeepsMatch(s, g, f) <==> !ClashAmong(s.committed.flags[f].strategy, g.changes)
  {
    var current := s.committed.flags[f].strategy;
    if ClashAmong(current, g.changes) {
      InitialRests(s);
      hide AtRest, FindFlag, ClashOneWay, Legal, Final, RunOf, FlagMatched, Clears, OfOneFlag;
      var steps: seq<Step>;
      if ClashPair(current, g.changes) {
        var i, j :| 0 <= i < |g.changes| && 0 <= j < |g.changes| && i != j
          && ClashOneWay(current, g.changes[i], g.changes[j]);
        steps := PairBreaks(s, g, f, i, j);
      } else {
        var c, i, j :|
          && 0 <= c < |g.changes| && 0 <= i < |g.changes| && 0 <= j < |g.changes| && c != i && c != j && i != j
          && Clears(g.changes[c]) && ClashOneWay(NoStrategy, g.changes[i], g.changes[j]);
        steps := OnceClearedBreaks(s, g, f, c, i, j);
      }
    } else {
      hide Initial, FindFlag, ClashAmong, Legal, Final, RunOf, FlagMatched, OfOneFlag;
      forall steps: seq<Step> | Legal(s, steps) && RunOf(g, steps)
        ensures FlagMatched(Final(s, steps).committed, f)
      {
        var stage := NoClashKeepsMatch(s, steps, g, f);
      }
    }
  }

  /** Of two updates only the pair itself can clash. */
  lemma TwoUpdatesIff(s: State, key: string, environment: string, f: Uuid, a: UpdateFlagInput, b: UpdateFlagInput)
    requires Initial(s) && FindFlag(s.committed.flags, key, environment) == Some(f) && FlagMatched(s.committed, f)
    requires OfOneFlag(Contest([a, b], key, environment))
    ensures var current := s.committed.flags[f].strategy;
      AlwaysKeepsMatch(s, Contest([a, b], key, environment), f)
      <==> !ClashOneWay(current, a, b) && !ClashOneWay(current, b, a)
  {
    hide Initial, FindFlag, ClashOneWay, ClashAmong, FlagMatched, OfOneFlag, AlwaysKeepsMatch;
    KeepMatchIff(s, Contest([a, b], key, environment), f);
    ClashOfTwo(s.committed.flags[f].strategy, a, b);
  }

  // ---------------------------------------------------------------- an instance

  function SetRule(kind: RuleKind, value: string): UpdateFlagInput {
    UpdateFlagInput("k", None, true, Some([Some(RuleInput(kind, value))]))
  }

  /** One flag, in the dev environment, without strategy and rules. */
  function Start(hash: Hash): State {
    var tables := Tables(map[], map[1 := FlagRow("k", None, false, DEV, NoStrategy)], map[], map[], map[], map[], []);
    State(hash, tables, map[], map[], {1}, [], map[])
  }

  lemma StartIsFine(hash: Hash)
    ensures Initial(Start(hash)) && Matched(Start(hash).committed)
    ensures FindFlag(Start(hash).committed.flags, "k", DEV) == Some(1)
  {
    var flags := Start(hash).committed.flags;
    assert 1 in flags && FlagKeyOf(flags[1]) == ("k", DEV);
    assert FindFlag(flags, "k", DEV).Some?;
  }

  lemma UnmatchedFlag(c: Tables, f: Uuid)
    requires f in c.flags && !FlagMatched(c, f)
    ensures !Matched(c)
  {
  }

  /**
   From a flag without rules, two overlapping audited updates, both committed, leave the
   flag with rules that do not all ask for its strategy.
   */
  lemma OverlapBreaksMatch(hash: Hash) returns (steps: seq<Step>)
    ensures Initial(Start(hash)) && Matched(Start(hash).committed)
    ensures Legal(Start(hash), steps) && !Matched(Final(Start(hash), steps).committed)
    ensures Final(Start(hash), steps).order == [0, 1]
  {
    StartIsFine(hash);
    InitialRests(Start(hash));
    var a, b := SetRule(PercentageKind, "30"), SetRule(AttributeKind, "{}");
    assert ClashOneWay(NoStrategy, a, b);
    hide Initial, Legal, Final, Matched, FindFlag, AtRest, FlagMatched, ClashOneWay;
    steps := ClashBreaks(Start(hash), 1, 0, a, 1, b);
    UnmatchedFlag(Final(Start(hash), steps).committed, 1);
    assert [] + [0, 1] == [0, 1];
  }
}
