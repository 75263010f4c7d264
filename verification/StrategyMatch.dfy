/**
 The rollout strategy of a flag and the types of its stored rules stay matched in every
 interleaving in which updates of one flag do not overlap.
 */
module StrategyMatch {
  import opened Wrappers
  import opened Schema
  import opened Statements
  import opened FlagRules
  import opened Protocol
  import opened Transactions
  import opened Merging
  import opened Interleaving
  import opened Isolation
  import opened Reachable
  import opened AuditTrail
  import opened Evaluation
  import opened Readers
  import opened RolloutHistory

  predicate Updating(tx: Tx) {
    tx.mutation.UpdateFlag? && TargetOf(tx).Some?
  }

  /** No two open transactions update the same flag. */
  ghost predicate NoOverlap(txs: map<nat, Tx>) {
    forall j, k :: j in txs && k in txs && j != k && Updating(txs[j]) && Updating(txs[k]) ==>
      TargetOf(txs[j]) != TargetOf(txs[k])
  }

  /** Rules written or still to be inserted ask for the strategy. */
  ghost predicate RowsMatch(d: Delta, todo: seq<Statement>, strategy: Strategy) {
    && (forall r :: r in d.rules && d.rules[r].Some? ==> StrategyOf(d.rules[r].value.kind) == strategy)
    && (forall i :: 0 <= i < |todo| && todo[i].InsertRule? ==> StrategyOf(todo[i].rule.kind) == strategy)
  }

  /** Every committed rule of the flag is deleted by this transaction. */
  ghost predicate Cleared(c: Tables, d: Delta, x: Uuid) {
    forall r :: r in c.rules && c.rules[r].flag == x ==> r in d.rules
  }

  /** The strategy an update gives its flag, whether its row is already written or not. */
  function GoalOf(d: Delta, x: Uuid, todo: seq<Statement>): Option<Strategy> {
    if todo != [] then
      (if todo[|todo| - 1].UpdateFlag? then Some(todo[|todo| - 1].flag.strategy) else None)
    else if x in d.flags && d.flags[x].Some? then Some(d.flags[x].value.strategy)
    else None
  }

  ghost predicate KeepsRules(c: Tables, d: Delta, x: Uuid, todo: seq<Statement>, goal: Strategy) {
    && d.rules == map[]
    && (forall i :: 0 <= i < |todo| ==> todo[i].UpdateFlag?)
    && (x in c.flags ==> c.flags[x].strategy == goal)
  }

  ghost predicate ReplacesRules(c: Tables, d: Delta, x: Uuid, todo: seq<Statement>) {
    && (if todo != [] && todo[0].DeleteRules? then d.rules == map[] else Cleared(c, d, x))
    && (forall i :: 1 <= i < |todo| ==> !todo[i].DeleteRules?)
  }

  ghost predicate CreateMatches(input: CreateFlagInput, d: Delta, x: Uuid, todo: seq<Statement>) {
    && x in d.flags && d.flags[x].Some?
    && RowsMatch(d, todo, d.flags[x].value.strategy)
  }

  ghost predicate UpdateMatches(c: Tables, change: UpdateFlagInput, d: Delta, x: Uuid, todo: seq<Statement>) {
    && GoalOf(d, x, todo).Some?
    && RowsMatch(d, todo, GoalOf(d, x, todo).value)
    && (change.rules.None? ==> KeepsRules(c, d, x, todo, GoalOf(d, x, todo).value))
    && (change.rules.Some? ==> ReplacesRules(c, d, x, todo))
  }

  /** Rules committed by others since the decision belong to other flags. */
  ghost predicate NewsElsewhere(c: Tables, news: set<Uuid>, x: Uuid) {
    forall r :: r in news && r in c.rules ==> c.rules[r].flag != x
  }

  ghost predicate RunningMatches(c: Tables, tx: Tx, x: Uuid, todo: seq<Statement>) {
    && (tx.mutation.CreateFlag? ==> CreateMatches(tx.mutation.newFlag, tx.delta, x, todo))
    && (tx.mutation.UpdateFlag? ==>
          UpdateMatches(c, tx.mutation.flagChange, tx.delta, x, todo) && NewsElsewhere(c, tx.news, x))
  }

  ghost predicate TxMatches(c: Tables, tx: Tx) {
    match tx.phase
    case Running(x, todo) => RunningMatches(c, tx, x, todo)
    case Logged(x) => RunningMatches(c, tx, x, [])
    case _ => true
  }

  ghost predicate MatchOk(s: State) {
    && Matched(s.committed)
    && forall k :: k in s.txs ==> TxMatches(s.committed, s.txs[k])
  }

  // ---------------------------------------------------------------- decisions

  lemma ReplacementMatches(x: Uuid, rules: seq<Option<RuleInput>>, strategy: Strategy)
    requires rules == [] || (SameType(rules).Success? && StrategyOf(SameType(rules).value) == strategy)
    ensures RowsMatch(NO_WRITES, Replacement(x, rules), strategy)
    ensures Replacement(x, rules)[0].DeleteRules?
    ensures forall i :: 1 <= i < |Replacement(x, rules)| ==> Replacement(x, rules)[i].InsertRule?
  {
    var todo := Replacement(x, rules);
    var rows := RuleRows(x, rules);
    if rules != [] {
      RowsKeepType(x, rules, SameType(rules).value);
    }
    forall i | 1 <= i < |todo|
      ensures todo[i].InsertRule? && StrategyOf(todo[i].rule.kind) == strategy
    {
      assert todo[i] == InsertRule(rows[i - 1]);
    }
  }

  lemma ChildrenMatch(m: Mutation, insert: Statement, x: Uuid)
    requires m.CreateFlag? && Opens(m, insert)
    ensures forall i :: 0 <= i < |Children(m, x)| && Children(m, x)[i].InsertRule? ==>
      StrategyOf(Children(m, x)[i].rule.kind) == insert.flag.strategy
  {
    if |m.newFlag.rules| > 0 {
      ReplacementMatches(x, m.newFlag.rules, insert.flag.strategy);
    }
  }

  lemma DecidedUpdateMatches(c: Tables, m: Mutation)
    requires m.UpdateFlag? && Decide(c, m).Success?
    ensures var plan := Decide(c, m).value;
      plan.OnRow? && UpdateMatches(c, m.flagChange, NO_WRITES, plan.target, plan.todo)
  {
    var change := m.flagChange;
    var f := FindFlag(c.flags, change.key, EnvironmentOf(change)).value;
    var row := EditedFlag(c.flags[f], change).value;
    var before := RulesTodo(f, change.rules);
    var todo := Decide(c, m).value.todo;
    assert todo == before + [Statement.UpdateFlag(f, row)];
    assert todo[|todo| - 1] == Statement.UpdateFlag(f, row);
    if change.rules.Some? {
      ReplacementMatches(f, change.rules.value, row.strategy);
      forall i | 0 <= i < |todo|
        ensures i == 0 ==> todo[i].DeleteRules?
        ensures i > 0 ==> !todo[i].DeleteRules?
        ensures todo[i].InsertRule? ==> StrategyOf(todo[i].rule.kind) == row.strategy
      {
        if i < |before| {
          assert todo[i] == before[i];
        }
      }
    }
  }

  // ---------------------------------------------------------------- statements

  lemma DeleteClears(c: Tables, d: Delta, x: Uuid, news: set<Uuid>, missed: set<Uuid>)
    requires d.rules == map[] && !Deletes(d.flags, x) && NewsElsewhere(c, news, x) && missed <= news
    ensures Cleared(c, Record(c, d, DeleteRules(x), 0, missed), x)
  {
    forall r | r in c.rules && c.rules[r].flag == x
      ensures r in Record(c, d, DeleteRules(x), 0, missed).rules
    {
      assert r in View(c, d).rules;
    }
  }

  lemma UpdateAfterStatement(
    c: Tables, change: UpdateFlagInput, d: Delta, x: Uuid, todo: seq<Statement>, id: Uuid,
    news: set<Uuid>, missed: set<Uuid>)
    requires UpdateMatches(c, change, d, x, todo) && todo != []
    requires NewsElsewhere(c, news, x) && missed <= news
    requires !Deletes(d.flags, x)
    requires todo[0].UpdateFlag? ==> todo == [Statement.UpdateFlag(x, todo[0].flag)]
    requires todo[0].DeleteRules? ==> todo[0].flagId == x
    requires todo[0].UpdateFlag? || todo[0].DeleteRules? || todo[0].InsertRule?
    ensures UpdateMatches(c, change, Record(c, d, todo[0], id, missed), x, todo[1..])
  {
    var s := todo[0];
    var d' := Record(c, d, s, id, missed);
    if s.UpdateFlag? {
      assert d'.flags[x] == Some(s.flag);
    } else {
      assert todo[1..][|todo[1..]| - 1] == todo[|todo| - 1];
      if s.DeleteRules? {
        DeleteClears(c, d, x, news, missed);
        assert d'.rules == Record(c, d, DeleteRules(x), 0, missed).rules;
      }
    }
  }

  lemma CreateAfterStatement(
    c: Tables, input: CreateFlagInput, d: Delta, x: Uuid, todo: seq<Statement>, id: Uuid, missed: set<Uuid>)
    requires CreateMatches(input, d, x, todo) && todo != []
    requires todo[0].DeleteRules? || todo[0].InsertRule?
    ensures CreateMatches(input, Record(c, d, todo[0], id, missed), x, todo[1..])
  {
  }

  lemma MatchesAfterStatement(c: Tables, issued: set<Uuid>, tx: Tx, id: Uuid, missed: set<Uuid>)
    requires TxOk(c, issued, tx) && TxMatches(c, tx) && Waiting(tx)
    requires missed <= tx.news
    ensures TxMatches(c, AfterStatement(c, tx, id, missed))
  {
    hide View, Touches, Standing, CreateMatches, UpdateMatches, NewsElsewhere;
    var stmt, m := NextStatement(tx), tx.mutation;
    if Exec(View(c, tx.delta), stmt, id).Applied? && EntityOf(m) == FeatureFlag {
      if tx.phase.Inserting? {
        ParentMatches(c, m, stmt, id, missed);
      } else {
        var x, todo := tx.phase.target, tx.phase.todo;
        assert OnTarget(m, x, stmt);
        StatementKinds(c, issued, tx);
        if m.CreateFlag? {
          CreateAfterStatement(c, m.newFlag, tx.delta, x, todo, id, missed);
        } else if m.UpdateFlag? {
          UpdateAfterStatement(c, m.flagChange, tx.delta, x, todo, id, tx.news, missed);
        }
      }
    }
  }

  lemma StatementKinds(c: Tables, issued: set<Uuid>, tx: Tx)
    requires TxOk(c, issued, tx) && tx.phase.Running? && tx.phase.todo != []
    ensures WrittenIds(tx.delta) <= issued
    ensures tx.mutation.CreateFlag? ==> tx.phase.todo[0].DeleteRules? || tx.phase.todo[0].InsertRule?
    ensures tx.mutation.UpdateFlag? ==> !Deletes(tx.delta.flags, tx.phase.target)
    ensures tx.mutation.UpdateFlag? && tx.phase.todo[0].UpdateFlag? ==>
      tx.phase.todo == [Statement.UpdateFlag(tx.phase.target, tx.phase.todo[0].flag)]
  {
    hide Standing;
  }

  lemma ParentMatches(c: Tables, m: Mutation, insert: Statement, id: Uuid, missed: set<Uuid>)
    requires Opens(m, insert) && EntityOf(m) == FeatureFlag
    ensures m.CreateFlag? && CreateMatches(m.newFlag, Record(c, NO_WRITES, insert, id, missed), id, Children(m, id))
  {
    ChildrenMatch(m, insert, id);
  }

  // ---------------------------------------------------------------- commits

  lemma UpdateCommitMatches(c: Tables, issued: set<Uuid>, tx: Tx, x: Uuid)
    requires TxOk(c, issued, tx) && tx.phase == Logged(x) && tx.mutation.UpdateFlag?
    requires TxMatches(c, tx) && Matched(c)
    ensures FlagMatched(View(c, tx.delta), x)
  {
    hide AuditFor;
    assert Standing(c, tx.mutation, tx.delta, x);
    assert OnlyFlag(c, tx.delta, x) && Wrote(tx.mutation, tx.delta, x);
    assert UpdateMatches(c, tx.mutation.flagChange, tx.delta, x, []);
  }

  lemma CreateCommitMatches(c: Tables, issued: set<Uuid>, tx: Tx, x: Uuid)
    requires Consistent(c) && TxOk(c, issued, tx) && tx.phase == Logged(x) && tx.mutation.CreateFlag?
    requires TxMatches(c, tx)
    ensures FlagMatched(View(c, tx.delta), x)
  {
    hide UsersOk, VariantsOk, AssignmentsOk, UniqueBy, AuditFor;
    assert OnlyFlag(c, tx.delta, x) && Standing(c, tx.mutation, tx.delta, x);
    assert CreateMatches(tx.mutation.newFlag, tx.delta, x, []);
  }

  lemma DeletedFlagHasNothing(c: Tables, issued: set<Uuid>, tx: Tx, x: Uuid)
    requires TxOk(c, issued, tx) && tx.phase == Logged(x) && tx.mutation.DeleteFlag?
    ensures var v := View(c, tx.delta); x !in v.flags && forall r :: r in v.rules ==> v.rules[r].flag != x
  {
    hide Standing, AuditFor, Touches;
  }

  lemma OtherFlagMatches(c: Tables, c': Tables, f: Uuid, r: Uuid)
    requires Matched(c) && SameImage(c, c', FeatureFlag, f)
    requires f in c'.flags && r in c'.rules && c'.rules[r].flag == f
    ensures StrategyOf(c'.rules[r].kind) == c'.flags[f].strategy
  {
    assert SameRow(c.rules, c'.rules, r);
  }

  lemma MatchedAfterCommit(c: Tables, issued: set<Uuid>, tx: Tx, x: Uuid)
    requires Consistent(c) && TxOk(c, issued, tx) && tx.phase == Logged(x)
    requires TxMatches(c, tx) && Matched(c)
    ensures Matched(View(c, tx.delta))
  {
    hide Consistent, TxOk, TxMatches, View, SameImage;
    var v, m := View(c, tx.delta), tx.mutation;
    CommitKeepsOthers(c, issued, tx, x);
    if m.UpdateFlag? {
      UpdateCommitMatches(c, issued, tx, x);
    } else if m.CreateFlag? {
      CreateCommitMatches(c, issued, tx, x);
    } else if m.DeleteFlag? {
      DeletedFlagHasNothing(c, issued, tx, x);
    }
    forall r | r in v.rules && v.rules[r].flag in v.flags
      ensures StrategyOf(v.rules[r].kind) == v.flags[v.rules[r].flag].strategy
    {
      var f := v.rules[r].flag;
      if EntityOf(m) != FeatureFlag || f != x {
        assert SameImage(c, v, FeatureFlag, f);
        OtherFlagMatches(c, v, f, r);
      }
    }
  }

  /** What the commit of t1 means for an update of another flag, or of the flag t1 deletes. */
  lemma UpdateAfterOthersCommit(c: Tables, c': Tables, change: UpdateFlagInput, d: Delta, y: Uuid, todo: seq<Statement>)
    requires UpdateMatches(c, change, d, y, todo)
    requires SameImage(c, c', FeatureFlag, y) || (y !in c'.flags && forall r :: r in c'.rules ==> c'.rules[r].flag != y)
    ensures UpdateMatches(c', change, d, y, todo)
  {
    if SameImage(c, c', FeatureFlag, y) {
      forall r | r in c'.rules && c'.rules[r].flag == y
        ensures r in c.rules && c.rules[r].flag == y
      {
        assert SameRow(c.rules, c'.rules, r);
      }
    }
  }

  /** The flag another transaction updates is not one that t1 creates or updates. */
  lemma UpdatedFlagIsApart(c: Tables, issued: set<Uuid>, t1: Tx, x: Uuid, t2: Tx, y: Uuid)
    requires TxOk(c, issued, t1) && t1.phase == Logged(x)
    requires t2.mutation.UpdateFlag? && TargetOf(t2) == Some(y)
    requires Apart(t1, t2) && (Updating(t1) ==> TargetOf(t1) != TargetOf(t2))
    ensures var c' := View(c, t1.delta);
      SameImage(c, c', FeatureFlag, y) || (y !in c'.flags && forall r :: r in c'.rules ==> c'.rules[r].flag != y)
    ensures forall r :: r in InsertedRules(t1.delta) && r in View(c, t1.delta).rules ==>
      View(c, t1.delta).rules[r].flag != y
  {
    hide Scheduled, Standing, AuditFor, SameImage, View, Compatible;
    CommitKeepsOthers(c, issued, t1, x);
    InsertedRulesOnTarget(c, issued, t1, x);
    if t1.mutation.DeleteFlag? {
      DeletedFlagHasNothing(c, issued, t1, x);
      if x != y {
        assert SameImage(c, View(c, t1.delta), FeatureFlag, y);
      }
    } else if EntityOf(t1.mutation) != FeatureFlag || x != y {
      assert SameImage(c, View(c, t1.delta), FeatureFlag, y);
    }
  }

  lemma InsertedRulesOnTarget(c: Tables, issued: set<Uuid>, tx: Tx, x: Uuid)
    requires TxOk(c, issued, tx) && tx.phase == Logged(x)
    ensures forall r :: r in InsertedRules(tx.delta) && r in View(c, tx.delta).rules ==>
      View(c, tx.delta).rules[r].flag == x && EntityOf(tx.mutation) == FeatureFlag
  {
    hide Scheduled, Standing, AuditFor;
  }

  lemma TxMatchesAfterCommit(s: State, k: nat, x: Uuid, j: nat)
    requires k in s.txs && s.txs[k].phase == Logged(x) && j in s.txs && j != k
    requires TxOk(s.committed, s.issued, s.txs[k]) && Apart(s.txs[k], s.txs[j])
    requires TxMatches(s.committed, s.txs[j])
    requires Updating(s.txs[k]) && Updating(s.txs[j]) ==> TargetOf(s.txs[k]) != TargetOf(s.txs[j])
    ensures TxMatches(AfterCommit(s, k).committed, AfterCommit(s, k).txs[j])
  {
    hide TxOk, Apart, View, UpdateMatches, SameImage, InsertedRules;
    var t1, t2, c := s.txs[k], s.txs[j], s.committed;
    var c' := AfterCommit(s, k).committed;
    var t2' := AfterCommit(s, k).txs[j];
    if t2.mutation.UpdateFlag? && TargetOf(t2).Some? {
      var y := TargetOf(t2).value;
      var todo := if t2.phase.Running? then t2.phase.todo else [];
      UpdatedFlagIsApart(c, s.issued, t1, x, t2, y);
      UpdateAfterOthersCommit(c, c', t2.mutation.flagChange, t2.delta, y, todo);
      forall r | r in t2'.news && r in c'.rules
        ensures c'.rules[r].flag != y
      {
        if r in t2.news {
          OldRuleKeepsFlag(c, s.issued, t1, x, r);
        }
      }
    }
  }

  /** A committed rule that outlives a commit keeps its flag, or was inserted by it. */
  lemma OldRuleKeepsFlag(c: Tables, issued: set<Uuid>, tx: Tx, x: Uuid, r: Uuid)
    requires TxOk(c, issued, tx) && tx.phase == Logged(x) && r in View(c, tx.delta).rules
    ensures r in InsertedRules(tx.delta) || (r in c.rules && c.rules[r].flag == View(c, tx.delta).rules[r].flag)
  {
  }

  lemma MatchAfterCommit(s: State, k: nat, x: Uuid)
    requires k in s.txs && s.txs[k].phase == Logged(x)
    requires Good(s) && MatchOk(s) && NoOverlap(s.txs)
    ensures MatchOk(AfterCommit(s, k))
  {
    hide Consistent, AllViewsConsistent, TxOk, TxMatches, Apart, View, Matched;
    assert TxOk(s.committed, s.issued, s.txs[k]) && TxMatches(s.committed, s.txs[k]);
    MatchedAfterCommit(s.committed, s.issued, s.txs[k], x);
    var s' := AfterCommit(s, k);
    forall j | j in s'.txs
      ensures TxMatches(s'.committed, s'.txs[j])
    {
      if j != k {
        assert Apart(s.txs[k], s.txs[j]) && TxMatches(s.committed, s.txs[j]);
        TxMatchesAfterCommit(s, k, x, j);
      } else {
        FinishedMatches(s'.committed, s'.txs[k]);
      }
    }
  }

  lemma FinishedMatches(c: Tables, tx: Tx)
    requires TargetOf(tx).None?
    ensures TxMatches(c, tx)
  {
  }

  // ---------------------------------------------------------------- all steps

  lemma MatchAfterOther(s: State, step: Step)
    requires Good(s) && MatchOk(s) && Enabled(s, step) && !step.Commit?
    ensures MatchOk(After(s, step))
  {
    hide Consistent, AllViewsConsistent, Isolated, View, Exec, Admit, RunningMatches, Matched, AfterStatement, TxOk;
    MatchedIgnoresAssignments(s, step);
    var s' := After(s, step);
    forall k | k in s'.txs
      ensures TxMatches(s'.committed, s'.txs[k])
    {
      if k in s.txs {
        assert TxMatches(s.committed, s.txs[k]) && TxOk(s.committed, s.issued, s.txs[k]);
        MatchesIgnoreAssignments(s.committed, s'.committed, s.txs[k]);
      }
      if step.Execute? && step.k == k {
        MatchesAfterStatement(s.committed, s.issued, s.txs[k], step.id, step.missed);
      } else if step.Read? && step.k == k {
        ReadMatches(s, k);
      } else if step.Log? && step.k == k {
        LogMatches(s.committed, s.txs[k]);
      } else if (step.Open? || step.Fault?) && step.k == k {
        FinishedMatches(s'.committed, s'.txs[k]);
      }
    }
  }

  lemma ReadMatches(s: State, k: nat)
    requires Enabled(s, Read(k)) && TxOk(s.committed, s.issued, s.txs[k])
    ensures TxMatches(s.committed, AfterRead(s, s.txs[k]))
  {
    hide Decide, UpdateMatches;
    var m := s.txs[k].mutation;
    if Decide(s.committed, m).Success? {
      if m.UpdateFlag? {
        DecidedUpdateMatches(s.committed, m);
      } else if m.CreateFlag? {
        DecideCreatesFlag(s.committed, m);
      }
    }
  }

  lemma DecideCreatesFlag(c: Tables, m: Mutation)
    ensures m.CreateFlag? && Decide(c, m).Success? ==> Decide(c, m).value.NewRow?
  {
  }

  lemma LogMatches(c: Tables, tx: Tx)
    requires TxMatches(c, tx) && tx.phase.Running? && tx.phase.todo == []
    ensures TxMatches(c, AfterLog(tx, tx.phase.target))
  {
  }

  lemma MatchesIgnoreAssignments(c: Tables, c': Tables, tx: Tx)
    requires TxMatches(c, tx) && c'.flags == c.flags && c'.rules == c.rules
    ensures TxMatches(c', tx)
  {
  }

  lemma MatchedIgnoresAssignments(s: State, step: Step)
    requires Enabled(s, step) && !step.Commit? && Matched(s.committed)
    ensures Matched(After(s, step).committed)
    ensures After(s, step).committed.flags == s.committed.flags && After(s, step).committed.rules == s.committed.rules
  {
    OtherStepsWriteNothing(s, step);
    hide After;
  }

  /** Updates of one flag never overlap in this run. */
  ghost predicate NeverOverlaps(s: State, steps: seq<Step>)
    requires Legal(s, steps)
    decreases |steps|
  {
    NoOverlap(Final(s, steps).txs) && (steps != [] ==> NeverOverlaps(s, steps[..|steps| - 1]))
  }

  /** Without overlapping updates of one flag, stored rules always match their flag's strategy. */
  lemma {:induction false} RulesMatchStrategy(s: State, steps: seq<Step>)
    requires Initial(s) && Matched(s.committed) && Legal(s, steps) && NeverOverlaps(s, steps)
    ensures MatchOk(Final(s, steps)) && Matched(Final(s, steps).committed)
    decreases |steps|
  {
    if steps != [] {
      var init, step := steps[..|steps| - 1], steps[|steps| - 1];
      RulesMatchStrategy(s, init);
      GoodAlways(s, init);
      var f := Final(s, init);
      hide Good, MatchOk, NoOverlap;
      if step.Commit? {
        MatchAfterCommit(f, step.k, f.txs[step.k].phase.target);
      } else {
        MatchAfterOther(f, step);
      }
    }
  }

  lemma {:induction false} NeverOverlapsBefore(s: State, steps: seq<Step>, n: nat)
    requires Legal(s, steps) && n <= |steps| && NeverOverlaps(s, steps)
    ensures Legal(s, steps[..n]) && NeverOverlaps(s, steps[..n])
    decreases |steps|
  {
    PrefixLegal(s, steps, n);
    if n == |steps| {
      assert steps[..n] == steps;
    } else {
      assert steps[..|steps| - 1][..n] == steps[..n];
      NeverOverlapsBefore(s, steps[..|steps| - 1], n);
    }
  }

  /**
   So an evaluation in such a run has the simple meaning of its flag and rules, if no mutation
   aimed at the flag commits between its reads.
   */
  lemma AnswerMeansItsRules(lib: Library, s: State, moves: seq<Move>, n: nat)
    requires Initial(s) && Matched(s.committed)
    requires Lawful(Starts(lib, s), moves) && Legal(s, StepsOf(moves)) && NeverOverlaps(s, StepsOf(moves))
    requires var y := End(Starts(lib, s), moves); n in y.readers && y.readers[n].progress.Told?
    requires var r := End(Starts(lib, s), moves).readers[n];
      Quiet(s, StepsOf(moves), r.progress.from, r.progress.to, r.key, r.environment)
    ensures var r := End(Starts(lib, s), moves).readers[n];
      && r.progress.from <= |StepsOf(moves)|
      && Means(lib, TablesAt(s, StepsOf(moves), r.progress.from), r.key, r.environment, r.ctx, r.progress.verdict)
  {
    var r, steps := End(Starts(lib, s), moves).readers[n], StepsOf(moves);
    var i := r.progress.from;
    AnswersAreTwoReads(lib, s, moves);
    assert ReadRight(lib, s, steps, r);
    hide Initial, Legal, Final, NeverOverlaps, Good, Matched, Consistent, Means, Evaluate, StateAt, Lawful, Quiet, End;
    QuietAnswer(lib, s, moves, n, i);
    MatchedAt(s, steps, i);
    EvaluationMeansItsRules(lib, TablesAt(s, steps, i), r.key, r.environment, r.ctx);
  }

  lemma MatchedAt(s: State, steps: seq<Step>, i: nat)
    requires Initial(s) && Matched(s.committed) && Legal(s, steps) && NeverOverlaps(s, steps) && i <= |steps|
    ensures Matched(TablesAt(s, steps, i)) && Consistent(TablesAt(s, steps, i))
  {
    hide Initial, Legal, Final, NeverOverlaps, Good, Matched, Consistent;
    NeverOverlapsBefore(s, steps, i);
    RulesMatchStrategy(s, steps[..i]);
    GoodAlways(s, steps[..i]);
  }
}
