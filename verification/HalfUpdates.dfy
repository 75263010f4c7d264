/**
 Flag updates without audit store run outside any transaction: what a failure between the
 replaced rules and the flag row leaves.
 */
module HalfUpdates {
  import opened Wrappers
  import opened Schema
  import opened Statements
  import opened Errors
  import opened Auth
  import opened FlagRules
  import opened Protocol
  import opened FlagPlans
  import opened Databases
  import opened FlagServices
  import opened Evaluation
  import opened RuleReplacement

  lemma RuleListed(rules: map<Uuid, RuleRow>, f: Uuid, r: Uuid)
    requires r in rules && rules[r].flag == f
    ensures rules[r] in RulesOf(rules, f)
  {
    var ids := Sorted(RuleIds(rules, f));
    assert r in RuleIds(rules, f);
    var i :| 0 <= i < |ids| && ids[i] == r;
    assert RulesOf(rules, f)[i] == rules[r];
  }

  /** With the rules of one flag replaced, tables stay matched exactly if the new rules fit the old row. */
  lemma ReplacedMatchedIff(t: Tables, t': Tables, f: Uuid, rows: seq<RuleRow>)
    requires Matched(t) && f in t.flags && t' == t.(rules := t'.rules)
    requires multiset(RulesOf(t'.rules, f)) == multiset(rows) && OthersSame(t.rules, t'.rules, f)
    ensures Matched(t') <==> forall i :: 0 <= i < |rows| ==> StrategyOf(rows[i].kind) == t.flags[f].strategy
  {
    SameMembers(RulesOf(t'.rules, f), rows);
    forall i | 0 <= i < |rows|
      ensures exists r :: r in t'.rules && t'.rules[r].flag == f && t'.rules[r] == rows[i]
    {
      assert rows[i] in RulesOf(t'.rules, f);
      RowHasId(t'.rules, f, rows[i]);
    }
    forall r | r in t'.rules && t'.rules[r].flag == f
      ensures t'.rules[r] in rows
    {
      RuleListed(t'.rules, f, r);
    }
  }

  lemma RowHasId(rules: map<Uuid, RuleRow>, f: Uuid, row: RuleRow)
    requires row in RulesOf(rules, f)
    ensures exists r :: r in rules && rules[r].flag == f && rules[r] == row
  {
    var ids := Sorted(RuleIds(rules, f));
    var i :| 0 <= i < |ids| && RulesOf(rules, f)[i] == row;
    assert ids[i] in RuleIds(rules, f);
  }

  /**
   A failure between the two writes of an update leaves matched tables if and only if the
   update brings no rule or the flag already has the strategy of the rules it brings.
   */
  lemma HalfUpdateMatchedIff(t: Tables, change: UpdateFlagInput, f: Uuid, ids: nat -> Uuid, n: nat)
    requires Matched(t) && NewRuleIds(ids, n, t.rules)
    requires FindFlag(t.flags, change.key, EnvironmentOf(change)) == Some(f)
    requires ResolveStrategyForUpdate(t.flags[f].strategy, change.rules).Success?
    ensures Matched(Halfway(t, Mutation.UpdateFlag(change), ids, n)) <==>
      || NewRows(f, change.rules) == []
      || t.flags[f].strategy == ResolveStrategyForUpdate(t.flags[f].strategy, change.rules).value
  {
    hide Decide, FindFlag, Matched, RulesOf, OthersSame, RunTodo, Halfway, NewRuleIds, Exec, RuleRows;
    var todo, row := RulesTodo(f, change.rules), EditedFlag(t.flags[f], change).value;
    DecidesUpdate(t, change, f, row);
    hide EditedFlag, ResolveStrategyForUpdate;
    match change.rules
    case None =>
      NoRulesNothingRun(t, ids, n);
      HalfwayIs(t, Mutation.UpdateFlag(change), f, todo, Statement.UpdateFlag(f, row), ids, n);
    case Some(list) =>
      var rows := RuleRows(f, list);
      ReplacementFits(t, f, list, ids, n);
      HalfwayIs(t, Mutation.UpdateFlag(change), f, todo, Statement.UpdateFlag(f, row), ids, n);
      ReplacesExactly(t, f, rows, ids, n);
      ReplacedMatchedIff(t, RunTodo(t, todo, ids, n).value, f, rows);
      if rows != [] {
        RowsAskForStrategy(t.flags[f].strategy, list, f);
      }
  }

  lemma NoRulesNothingRun(t: Tables, ids: nat -> Uuid, n: nat)
    ensures RunTodo(t, [], ids, n) == Success(t)
  {
  }

  /**
   A service without audit store, and a database whose first call after the rules fails: the
   update fails, and the committed tables are matched exactly under that condition.
   */
  method StopsBeforeRow(t: Tables, uuids: nat -> Uuid, ctx: Context, change: UpdateFlagInput, ghost f: Uuid)
    returns (db: Database, r: Result<Answer, Error>)
    requires forall i, j :: uuids(i) == uuids(j) ==> i == j
    requires Consistent(t) && (forall i :: uuids(i) !in IdsOf(t)) && Matched(t)
    requires FindFlag(t.flags, change.key, EnvironmentOf(change)) == Some(f)
    requires ResolveStrategyForUpdate(t.flags[f].strategy, change.rules).Success?
    ensures r.Failure? && db.committed == Halfway(t, Mutation.UpdateFlag(change), uuids, 0)
    ensures Matched(db.committed) <==>
      || NewRows(f, change.rules) == []
      || t.flags[f].strategy == ResolveStrategyForUpdate(t.flags[f].strategy, change.rules).value
  {
    var m := Mutation.UpdateFlag(change);
    hide Consistent, IdsOf, Matched, FindFlag, ResolveStrategyForUpdate, NewRows, Work, Halfway, AnswerOf, NewRuleIds,
      CallsToHalfway, CallsInAll, Serial;
    UnusedAreNew(t, uuids);
    HalfUpdateMatchedIff(t, change, f, uuids, 0);
    CarriedOut(t, change, f, uuids);
    OneMoreCall(change);
    db := new Database(i => i == CallsToHalfway(m), uuids, t);
    var service := new FlagService(db, false);
    assert db.faults(CallsToHalfway(m));
    assert !db.Calm(0, CallsInAll(m)) && db.Calm(0, CallsToHalfway(m));
    r := service.UpdateFlag(ctx, change);
  }

  lemma UnusedAreNew(t: Tables, ids: nat -> Uuid)
    requires (forall i, j :: ids(i) == ids(j) ==> i == j) && forall i :: ids(i) !in IdsOf(t)
    ensures NewRuleIds(ids, 0, t.rules)
  {
    forall i: nat
      ensures ids(i) !in t.rules
    {
      assert ids(i) !in IdsOf(t);
    }
  }

  lemma OneMoreCall(change: UpdateFlagInput)
    ensures CallsInAll(Mutation.UpdateFlag(change)) == CallsToHalfway(Mutation.UpdateFlag(change)) + 1
  {
  }

  lemma CarriedOut(t: Tables, change: UpdateFlagInput, f: Uuid, ids: nat -> Uuid)
    requires Consistent(t) && FindFlag(t.flags, change.key, EnvironmentOf(change)) == Some(f)
    requires ResolveStrategyForUpdate(t.flags[f].strategy, change.rules).Success?
    ensures Work(t, Mutation.UpdateFlag(change), ids, 0).Success?
  {
    if change.rules.Some? {
      ReplacementFits(t, f, change.rules.value, ids, 0);
    }
    UpdateStages(t, change, f, ids, 0, 0);
  }

  /** One flag without strategy and rules; the update brings a percentage rule. */
  method HalfUpdateMixes(ctx: Context) returns (db: Database, r: Result<Answer, Error>)
    ensures r.Failure? && !Matched(db.committed)
  {
    var t := Tables(map[], map[0 := FlagRow("k", None, false, DEV, NoStrategy)], map[], map[], map[], map[], []);
    var change := UpdateFlagInput("k", None, true, Some([Some(RuleInput(PercentageKind, "30"))]));
    assert 0 in t.flags && FlagKeyOf(t.flags[0]) == ("k", DEV);
    assert FindFlag(t.flags, "k", DEV) == Some(0);
    assert change.rules.value[..0] == [];
    assert NewRows(0, change.rules) == [RuleRow(0, PercentageRule, "30")];
    db, r := StopsBeforeRow(t, i => i + 1, ctx, change, 0);
  }
}
