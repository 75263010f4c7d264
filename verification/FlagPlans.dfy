/** How the plans of flag mutations run when nothing interferes. */
module FlagPlans {
  import opened Wrappers
  import opened Schema
  import opened Statements
  import opened Errors
  import opened FlagRules
  import opened Protocol

  /** Once its row is in, a new flag's rules are never refused. */
  lemma CreateHalfway(t: Tables, input: CreateFlagInput, row: FlagRow, ids: nat -> Uuid, n: nat)
    requires Decide(t, Mutation.CreateFlag(input)) == Success(NewRow(InsertFlag(row)))
    requires Exec(t, InsertFlag(row), ids(n)).Applied?
    ensures var t' := Exec(t, InsertFlag(row), ids(n)).tables;
      && Halfway(t, Mutation.CreateFlag(input), ids, n) == t'
      && RunTodo(t', if |input.rules| == 0 then [] else Replacement(ids(n), input.rules), ids, n + 1).Success?
  {
    var t' := Exec(t, InsertFlag(row), ids(n)).tables;
    assert ids(n) in t'.flags;
    hide Decide, Exec;
    ReplacementFits(t', ids(n), input.rules, ids, n + 1);
  }

  /** Once its rules are in, an update's flag row is never refused. */
  lemma UpdateHalfway(t: Tables, change: UpdateFlagInput, f: Uuid, row: FlagRow, ids: nat -> Uuid, n: nat, id: Uuid)
    requires Consistent(t) && FindFlag(t.flags, change.key, EnvironmentOf(change)) == Some(f)
    requires EditedFlag(t.flags[f], change) == Success(row)
    requires RunTodo(t, RulesTodo(f, change.rules), ids, n).Success?
    ensures var t' := RunTodo(t, RulesTodo(f, change.rules), ids, n).value;
      && Halfway(t, Mutation.UpdateFlag(change), ids, n) == t'
      && Exec(t', Statement.UpdateFlag(f, row), id).Applied?
  {
    hide *;
    var m, todo, last := Mutation.UpdateFlag(change), RulesTodo(f, change.rules), Statement.UpdateFlag(f, row);
    DecidesUpdate(t, change, f, row);
    HalfwayIs(t, m, f, todo, last, ids, n);
    RulesTodoKeepsFlags(t, f, change.rules, ids, n);
    UniqueKeys(t);
    SameKeyFits(t, RunTodo(t, todo, ids, n).value, f, row, id);
  }

  lemma DecidesUpdate(t: Tables, change: UpdateFlagInput, f: Uuid, row: FlagRow)
    requires FindFlag(t.flags, change.key, EnvironmentOf(change)) == Some(f)
    requires EditedFlag(t.flags[f], change) == Success(row)
    ensures Decide(t, Mutation.UpdateFlag(change))
      == Success(OnRow(f, RulesTodo(f, change.rules) + [Statement.UpdateFlag(f, row)]))
    ensures FlagKeyOf(row) == FlagKeyOf(t.flags[f])
  {
    hide FindFlag, RulesTodo, ResolveStrategyForUpdate;
  }

  lemma HalfwayIs(
    t: Tables, m: Mutation, f: Uuid, todo: seq<Statement>, last: Statement, ids: nat -> Uuid, n: nat)
    requires Decide(t, m) == Success(OnRow(f, todo + [last])) && RunTodo(t, todo, ids, n).Success?
    ensures Halfway(t, m, ids, n) == RunTodo(t, todo, ids, n).value
  {
    hide Decide, RunTodo;
    assert (todo + [last])[..|todo + [last]| - 1] == todo;
  }

  lemma RulesTodoKeepsFlags(t: Tables, f: Uuid, rules: Option<seq<Option<RuleInput>>>, ids: nat -> Uuid, n: nat)
    ensures var r := RunTodo(t, RulesTodo(f, rules), ids, n); r.Success? ==> r.value.flags == t.flags
  {
    hide RunTodo;
    ChildrenKeepParents(t, RulesTodo(f, rules), ids, n);
  }

  lemma UniqueKeys(t: Tables)
    requires Consistent(t)
    ensures UniqueBy(t.flags, FlagKeyOf)
  {
  }

  /** A row that keeps its key is never refused. */
  lemma SameKeyFits(t: Tables, t': Tables, f: Uuid, row: FlagRow, id: Uuid)
    requires UniqueBy(t.flags, FlagKeyOf) && f in t.flags && t'.flags == t.flags
    requires FlagKeyOf(row) == FlagKeyOf(t.flags[f])
    ensures Exec(t', Statement.UpdateFlag(f, row), id).Applied?
  {
  }

  lemma RowApplied(t: Tables, f: Uuid, row: FlagRow, id: Uuid)
    ensures var effect := Exec(t, Statement.UpdateFlag(f, row), id);
      effect.Applied? ==> effect.tables == t.(flags := t.flags[f := row])
  {
  }

  /** The rules of a new flag leave its row alone. */
  lemma CreatedFlagStays(
    t: Tables, row: FlagRow, id: Uuid, rules: seq<Option<RuleInput>>, ids: nat -> Uuid, n: nat)
    requires Exec(t, InsertFlag(row), id).Applied?
    ensures var r := RunTodo(Exec(t, InsertFlag(row), id).tables,
        if |rules| == 0 then [] else Replacement(id, rules), ids, n);
      r.Success? ==> id in r.value.flags && r.value.flags[id] == row
  {
    var todo := if |rules| == 0 then [] else Replacement(id, rules);
    ChildrenKeepParents(Exec(t, InsertFlag(row), id).tables, todo, ids, n);
  }

  lemma MissingFlagWork(t: Tables, m: Mutation, ids: nat -> Uuid, n: nat)
    requires m.UpdateFlag?
    ensures var change := m.flagChange;
      FindFlag(t.flags, change.key, EnvironmentOf(change)) == None ==>
        Work(t, m, ids, n) == Failure(FlagNotFound(change.key, EnvironmentOf(change)))
  {
  }

  /** An update's work, statement by statement: the rules first, the flag row last. */
  lemma UpdateFlagWork(t: Tables, change: UpdateFlagInput, f: Uuid, ids: nat -> Uuid, n: nat, id: Uuid)
    requires FindFlag(t.flags, change.key, EnvironmentOf(change)) == Some(f)
    ensures Work(t, Mutation.UpdateFlag(change), ids, n) == (
      match ResolveStrategyForUpdate(t.flags[f].strategy, change.rules)
      case Failure(e) => Failure(e)
      case Success(strategy) =>
        match RunTodo(t, RulesTodo(f, change.rules), ids, n)
        case Failure(e) => Failure(e)
        case Success(t') =>
          var last := Statement.UpdateFlag(f, t.flags[f].(enabled := change.enabled, strategy := strategy));
          match Exec(t', last, id)
          case Applied(t'') => Success((t'', f))
          case NoRows => Failure(Operation(MissingError(last)))
          case Rejected(reason) => Failure(Operation(StoreError(last, reason))))
  {
    hide FindFlag, Exec, ResolveStrategyForUpdate, RulesTodo;
    match EditedFlag(t.flags[f], change)
    case Failure(_) =>
    case Success(row) => RunThenLast(t, RulesTodo(f, change.rules), Statement.UpdateFlag(f, row), ids, n, id);
  }

  /** The stages of an update: refused, stopped at its rules, or carried through with its row stored. */
  lemma UpdateStages(t: Tables, change: UpdateFlagInput, f: Uuid, ids: nat -> Uuid, n: nat, id: Uuid)
    requires Consistent(t) && FindFlag(t.flags, change.key, EnvironmentOf(change)) == Some(f)
    ensures var m, strategy := Mutation.UpdateFlag(change), ResolveStrategyForUpdate(t.flags[f].strategy, change.rules);
      if strategy.Failure? then Work(t, m, ids, n) == Failure(strategy.error)
      else
        var todo := RunTodo(t, RulesTodo(f, change.rules), ids, n);
        if todo.Failure? then Work(t, m, ids, n) == Failure(todo.error)
        else
          var row := t.flags[f].(enabled := change.enabled, strategy := strategy.value);
          var end := Exec(todo.value, Statement.UpdateFlag(f, row), id);
          && Halfway(t, m, ids, n) == todo.value
          && end.Applied? && Work(t, m, ids, n) == Success((end.tables, f))
          && f in end.tables.flags && end.tables.flags[f] == row
  {
    UpdateFlagWork(t, change, f, ids, n, id);
    var strategy := ResolveStrategyForUpdate(t.flags[f].strategy, change.rules);
    if strategy.Success? && RunTodo(t, RulesTodo(f, change.rules), ids, n).Success? {
      var row := t.flags[f].(enabled := change.enabled, strategy := strategy.value);
      UpdateHalfway(t, change, f, row, ids, n, id);
    }
  }

  // ---------------------------------------------------------------- ids of new rules

  /** Rows under the ids from n on. */
  function Numbered(rows: seq<RuleRow>, ids: nat -> Uuid, n: nat): map<Uuid, RuleRow> {
    if rows == [] then map[] else map[ids(n) := rows[0]] + Numbered(rows[1..], ids, n + 1)
  }

  lemma NumberOneMore(rules: map<Uuid, RuleRow>, rows: seq<RuleRow>, ids: nat -> Uuid, n: nat)
    requires rows != []
    ensures rules[ids(n) := rows[0]] + Numbered(rows[1..], ids, n + 1) == rules + Numbered(rows, ids, n)
  {
  }

  lemma InsertApplied(t: Tables, row: RuleRow, id: Uuid)
    ensures var effect := Exec(t, InsertRule(row), id);
      !effect.NoRows? && (effect.Applied? ==> effect.tables == t.(rules := t.rules[id := row]))
  {
  }

  /** Rows inserted one after another get the next ids, and nothing else changes. */
  lemma {:induction false} InsertsNumber(t: Tables, rows: seq<RuleRow>, ids: nat -> Uuid, n: nat)
    ensures var end := RunTodo(t, InsertsOf(rows), ids, n);
      end.Success? ==> end.value == t.(rules := t.rules + Numbered(rows, ids, n))
    decreases |rows|
  {
    if rows == [] {
      assert t.rules + map[] == t.rules;
    } else {
      var todo := InsertsOf(rows);
      assert todo[0] == InsertRule(rows[0]) && todo[1..] == InsertsOf(rows[1..]);
      hide Exec, Numbered, InsertsOf;
      InsertApplied(t, rows[0], ids(n));
      NumberOneMore(t.rules, rows, ids, n);
      InsertsNumber(t.(rules := t.rules[ids(n) := rows[0]]), rows[1..], ids, n + 1);
    }
  }

  /** A replacement, row by row: the old rules of the flag are gone, the new ones have the next ids. */
  lemma ReplacementNumbers(t: Tables, f: Uuid, list: seq<Option<RuleInput>>, ids: nat -> Uuid, n: nat)
    requires f in t.flags
    ensures RunTodo(t, Replacement(f, list), ids, n)
      == Success(t.(rules := t.rules - RuleIds(t.rules, f) + Numbered(RuleRows(f, list), ids, n)))
  {
    var rows := RuleRows(f, list);
    var todo := Replacement(f, list);
    assert todo[0] == DeleteRules(f) && todo[1..] == InsertsOf(rows);
    ReplacementFits(t, f, list, ids, n);
    hide Numbered, RuleRows;
    InsertsNumber(t.(rules := t.rules - RuleIds(t.rules, f)), rows, ids, n);
  }

  lemma {:induction false} NumberedHas(rows: seq<RuleRow>, ids: nat -> Uuid, n: nat, i: nat)
    requires i < |rows| && forall j, k :: n <= j < k ==> ids(j) != ids(k)
    ensures var all := Numbered(rows, ids, n); ids(n + i) in all && all[ids(n + i)] == rows[i]
    decreases |rows|
  {
    if i > 0 {
      NumberedHas(rows[1..], ids, n + 1, i - 1);
    } else {
      NumberedOnly(rows[1..], ids, n + 1, ids(n));
    }
  }

  lemma {:induction false} NumberedOnly(rows: seq<RuleRow>, ids: nat -> Uuid, n: nat, r: Uuid)
    ensures r in Numbered(rows, ids, n) ==>
      Numbered(rows, ids, n)[r] in rows && exists i :: n <= i < n + |rows| && r == ids(i)
    decreases |rows|
  {
    if rows != [] {
      NumberedOnly(rows[1..], ids, n + 1, r);
      if r == ids(n) && r !in Numbered(rows[1..], ids, n + 1) {
        assert Numbered(rows, ids, n)[r] == rows[0];
      }
    }
  }
}
