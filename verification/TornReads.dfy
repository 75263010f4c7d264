/**
 An evaluation whose two reads lie on both sides of a commit: when it answers something that
 neither the state before nor the state after would answer.
 */
module TornReads {
  import opened Wrappers
  import opened Schema
  import opened Statements
  import opened Errors
  import opened FlagRules
  import opened Protocol
  import opened FlagPlans
  import opened Transactions
  import opened Interleaving
  import opened Isolation
  import opened Reachable
  import opened Evaluation
  import opened Solo

  // ---------------------------------------------------------------- the condition

  /** What an update must be like, on an enabled flag that so far answers before. */
  ghost predicate UpdateIsWhole(
    lib: Library, ctx: EvaluationContext, f: Uuid, current: Strategy, before: Result<bool, Error>,
    change: UpdateFlagInput)
  {
    || change.enabled
    || change.rules.None?
    || current == NoStrategy
    || ResolveStrategyForUpdate(current, change.rules).Failure?
    || var rows := RuleRows(f, change.rules.value);
       if rows == [] then before == Success(true)
       else forall i :: 0 <= i < |rows| ==> RuleVerdict(lib, ctx, rows[i]) in {Success(false), before}
  }

  /** No evaluation of this flag can be torn by the mutation. */
  ghost predicate TearsNothing(
    lib: Library, t: Tables, m: Mutation, key: string, environment: string, ctx: EvaluationContext)
  {
    var found, before := FindFlag(t.flags, key, environment), Evaluate(lib, t, key, environment, ctx);
    || ctx.userId == ""
    || found.None?
    || !t.flags[found.value].enabled
    || !AimedAt(m, key, environment)
    || match m
       case DeleteFlag(_, _) => before == Success(true)
       case UpdateFlag(change) => UpdateIsWhole(lib, ctx, found.value, t.flags[found.value].strategy, before, change)
       case _ => true
  }

  // ---------------------------------------------------------------- torn answers

  predicate OpensOnlyThis(step: Step, m: Mutation) {
    step.Open? ==> step.k == 0 && step.mutation == m
  }

  /** Every transaction of the run is number 0 and carries out m. */
  ghost predicate RunOfOne(steps: seq<Step>, m: Mutation) {
    forall i :: 0 <= i < |steps| ==> OpensOnlyThis(steps[i], m)
  }

  lemma SameReads(
    t: Tables, a: Tables, b: Tables, lib: Library, key: string, environment: string, ctx: EvaluationContext)
    requires a.flags == b.flags && a.rules == b.rules
    ensures TwoReads(lib, t, a, key, environment, ctx) == TwoReads(lib, t, b, key, environment, ctx)
    ensures Evaluate(lib, a, key, environment, ctx) == Evaluate(lib, b, key, environment, ctx)
  {
  }

  /** One transaction after others that have ended. */
  lemma RunsNext(s: State, before: seq<Step>, k: nat, m: Mutation, ids: nat -> Uuid) returns (steps: seq<Step>)
    requires Initial(s) && Legal(s, before) && k !in Final(s, before).txs
    requires forall j :: j in Final(s, before).txs ==> Ended(Final(s, before).txs[j].phase)
    requires NewIds(ids, 0, Final(s, before).issued, NO_WRITES) && Work(Final(s, before).committed, m, ids, 0).Success?
    ensures OnlyOf(steps, k, m) && Legal(s, before + steps)
    ensures var t := Work(Final(s, before).committed, m, ids, 0).value.0; var end := Final(s, before + steps);
      && end.committed.flags == t.flags && end.committed.rules == t.rules
      && k in end.txs && end.txs[k].phase.Finished?
  {
    hide Initial, Work, Legal, Final, NewIds, Admit, Good, Alone, IdsOf, Consistent;
    AdminAdmitted(m);
    GoodAlways(s, before);
    var f := Final(s, before);
    RestHoldsNothing(f, k);
    steps := SoloRun(f, k, m, SOME_ADMIN, ids, 0);
    Joins(s, before, steps);
  }

  /** The mutation alone, from reads to commit. */
  lemma RunsAlone(s: State, m: Mutation, ids: nat -> Uuid) returns (steps: seq<Step>)
    requires Initial(s) && NewIds(ids, 0, s.issued, NO_WRITES) && Work(s.committed, m, ids, 0).Success?
    ensures Legal(s, steps) && RunOfOne(steps, m)
    ensures var t := Work(s.committed, m, ids, 0).value.0;
      Final(s, steps).committed.flags == t.flags && Final(s, steps).committed.rules == t.rules
  {
    hide Work, NewIds, IdsOf;
    steps := RunsNext(s, [], 0, m, ids);
    assert [] + steps == steps;
    forall i | 0 <= i < |steps|
      ensures OpensOnlyThis(steps[i], m)
    {
      assert OfTx(steps[i], 0, m);
    }
  }

  /** The flag is gone, and so are its rules. */
  lemma DeleteWork(t: Tables, key: string, environment: string, f: Uuid, ids: nat -> Uuid)
    requires Consistent(t) && FindFlag(t.flags, key, environment) == Some(f)
    ensures Work(t, Mutation.DeleteFlag(key, environment), ids, 0).Success?
    ensures var t' := Work(t, Mutation.DeleteFlag(key, environment), ids, 0).value.0;
      FindFlag(t'.flags, key, environment) == None && RulesOf(t'.rules, f) == []
  {
    var t' := t.(flags := t.flags - {f}, rules := t.rules - RuleIds(t.rules, f));
    assert [Statement.DeleteFlag(f)][1..] == [];
    assert RunTodo(t, [Statement.DeleteFlag(f)], ids, 0) == Success(t');
    assert RuleIds(t'.rules, f) == {};
    assert forall i :: i in t.flags && FlagKeyOf(t.flags[i]) == (key, environment) ==> i == f;
  }

  /** Deleting an enabled flag between the reads makes the evaluation answer true. */
  lemma DeleteAnswersTrue(
    lib: Library, s: State, f: Uuid, key: string, environment: string, ctx: EvaluationContext)
    returns (steps: seq<Step>)
    requires Initial(s) && ctx.userId != ""
    requires FindFlag(s.committed.flags, key, environment) == Some(f) && s.committed.flags[f].enabled
    ensures Legal(s, steps) && RunOfOne(steps, Mutation.DeleteFlag(key, environment))
    ensures TwoReads(lib, s.committed, Final(s, steps).committed, key, environment, ctx) == Success(true)
    ensures Evaluate(lib, Final(s, steps).committed, key, environment, ctx) == Success(false)
  {
    var ids := IdsAbove(s.issued);
    var m := Mutation.DeleteFlag(key, environment);
    DeleteWork(s.committed, key, environment, f, ids);
    hide Work, Initial, Legal, Final, NewIds, RulesOf, RunOfOne;
    steps := RunsAlone(s, m, ids);
    var t := Work(s.committed, m, ids, 0).value.0;
    SameReads(s.committed, Final(s, steps).committed, t, lib, key, environment, ctx);
    hide FindFlag;
  }

  /** After a replacement the flag has only the given rows, under the next ids. */
  lemma NewRuleIds(
    t: Tables, t': Tables, f: Uuid, list: seq<Option<RuleInput>>, ids: nat -> Uuid, r: Uuid)
    requires f in t.flags && RunTodo(t, Replacement(f, list), ids, 0).Success?
    requires t'.rules == RunTodo(t, Replacement(f, list), ids, 0).value.rules
    requires r in RuleIds(t'.rules, f)
    ensures t'.rules[r] in RuleRows(f, list) && exists i: nat :: r == ids(i)
  {
    hide RunTodo, RuleRows, Numbered, Replacement;
    ReplacementNumbers(t, f, list, ids, 0);
    NumberedOnly(RuleRows(f, list), ids, 0, r);
  }

  lemma NewRuleThere(
    t: Tables, t': Tables, f: Uuid, list: seq<Option<RuleInput>>, ids: nat -> Uuid, x: nat)
    requires f in t.flags && RunTodo(t, Replacement(f, list), ids, 0).Success?
    requires t'.rules == RunTodo(t, Replacement(f, list), ids, 0).value.rules
    requires x < |RuleRows(f, list)| && forall i, j :: 0 <= i < j ==> ids(i) != ids(j)
    ensures ids(x) in RuleIds(t'.rules, f) && t'.rules[ids(x)] == RuleRows(f, list)[x]
  {
    hide RunTodo, RuleRows, Numbered, Replacement;
    var rows := RuleRows(f, list);
    assert rows[x].flag == f;
    ReplacementNumbers(t, f, list, ids, 0);
    NumberedHas(rows, ids, 0, x);
    assert t'.rules[ids(x)] == Numbered(rows, ids, 0)[ids(x)];
  }

  /** The rules of an accepted replacement, in the order of their ids. */
  lemma NewRulesOf(
    t: Tables, t': Tables, f: Uuid, list: seq<Option<RuleInput>>, ids: nat -> Uuid, x: nat)
    requires f in t.flags && RunTodo(t, Replacement(f, list), ids, 0).Success?
    requires t'.rules == RunTodo(t, Replacement(f, list), ids, 0).value.rules
    requires (forall i, j :: 0 <= i < j ==> ids(i) != ids(j)) && (forall i: nat :: ids(x) <= ids(i))
    ensures RuleRows(f, list) == [] ==> RulesOf(t'.rules, f) == []
    ensures x < |RuleRows(f, list)| ==> RulesOf(t'.rules, f) != [] && RulesOf(t'.rules, f)[0] == RuleRows(f, list)[x]
    ensures forall r :: r in RulesOf(t'.rules, f) ==> r in RuleRows(f, list)
  {
    var hits := RuleIds(t'.rules, f);
    var sorted := Sorted(hits);
    hide RunTodo, RuleRows, Replacement;
    forall r | r in hits
      ensures t'.rules[r] in RuleRows(f, list) && ids(x) <= r
    {
      NewRuleIds(t, t', f, list, ids, r);
    }
    forall i | 0 <= i < |sorted|
      ensures RulesOf(t'.rules, f)[i] in RuleRows(f, list)
    {
      assert sorted[i] in hits;
    }
    if x < |RuleRows(f, list)| {
      NewRuleThere(t, t', f, list, ids, x);
      assert sorted[0] == Least(hits) == ids(x);
    }
  }

  lemma FirstVoiceDecides(lib: Library, ctx: EvaluationContext, current: Strategy, rules: seq<RuleRow>, kind: RuleType)
    requires rules != [] && StrategyOf(kind) == current && kind != UntypedRule
    requires forall r :: r in rules ==> r.kind == kind
    requires RuleVerdict(lib, ctx, rules[0]) != Success(false)
    ensures AfterRules(lib, current, ctx, rules) == RuleVerdict(lib, ctx, rules[0])
  {
    assert rules[0].kind == kind;
  }

  /** Ids above all these, with the x-th the least. */
  lemma IdsWithLeast(issued: set<Uuid>, x: nat) returns (ids: nat -> Uuid)
    ensures NewIds(ids, 0, issued, NO_WRITES) && forall i: nat :: ids(x) <= ids(i)
  {
    var bound := Above(issued);
    ids := (i: nat) => if i == x then bound else bound + 1 + i;
  }

  /** What an accepted update leaves under its flag's key. */
  lemma UpdateLeaves(
    t: Tables, change: UpdateFlagInput, f: Uuid, strategy: Strategy, ids: nat -> Uuid)
    requires Consistent(t) && FindFlag(t.flags, change.key, EnvironmentOf(change)) == Some(f)
    requires ResolveStrategyForUpdate(t.flags[f].strategy, change.rules) == Success(strategy)
    requires change.rules.Some?
    ensures RunTodo(t, Replacement(f, change.rules.value), ids, 0).Success?
    ensures var w := Work(t, Mutation.UpdateFlag(change), ids, 0);
      && w.Success?
      && w.value.0.flags == t.flags[f := t.flags[f].(enabled := change.enabled, strategy := strategy)]
      && w.value.0.rules == RunTodo(t, Replacement(f, change.rules.value), ids, 0).value.rules
  {
    var list := change.rules.value;
    var row := t.flags[f].(enabled := change.enabled, strategy := strategy);
    ReplacementFits(t, f, list, ids, 0);
    UpdateStages(t, change, f, ids, 0, 0);
    RulesTodoKeepsFlags(t, f, change.rules, ids, 0);
    hide RunTodo, FindFlag, Replacement, Consistent, Work, ResolveStrategyForUpdate;
    assert Exec(RunTodo(t, RulesTodo(f, change.rules), ids, 0).value, Statement.UpdateFlag(f, row), 0).Applied?;
  }

  lemma FoundAfterUpdate(t: Tables, t': Tables, f: Uuid, row: FlagRow, key: string, environment: string)
    requires Consistent(t) && FindFlag(t.flags, key, environment) == Some(f)
    requires t'.flags == t.flags[f := row] && FlagKeyOf(row) == FlagKeyOf(t.flags[f])
    ensures FindFlag(t'.flags, key, environment) == Some(f)
  {
    assert f in t'.flags && FlagKeyOf(t'.flags[f]) == (key, environment);
    var found := FindFlag(t'.flags, key, environment);
    assert FlagKeyOf(t'.flags[found.value]) == (key, environment);
  }

  /** The kind of the rules an update replaces on a flag that has a strategy. */
  lemma NewRulesAreOfKind(f: Uuid, current: Strategy, list: seq<Option<RuleInput>>)
    requires ResolveStrategyForUpdate(current, Some(list)).Success? && current != NoStrategy
    requires RuleRows(f, list) != []
    ensures SameType(list).Success? && StrategyOf(SameType(list).value) == current
    ensures SameType(list).value != UntypedRule
    ensures forall r :: r in RuleRows(f, list) ==> r.kind == SameType(list).value
    ensures ResolveStrategyForUpdate(current, Some(list)) == Success(current)
  {
    RowsKeepType(f, list, SameType(list).value);
    assert RuleRows(f, list)[0].kind == SameType(list).value;
  }

  /** Before and after such an update, and across it. */
  lemma HalfAnswers(
    lib: Library, t: Tables, t': Tables, f: Uuid, strategy: Strategy, change: UpdateFlagInput, ids: nat -> Uuid,
    x: nat, ctx: EvaluationContext)
    requires Consistent(t) && FindFlag(t.flags, change.key, EnvironmentOf(change)) == Some(f)
    requires t.flags[f].enabled && t.flags[f].strategy != NoStrategy && ctx.userId != ""
    requires ResolveStrategyForUpdate(t.flags[f].strategy, change.rules) == Success(strategy)
    requires change.rules.Some? && !change.enabled
    requires t'.flags == t.flags[f := t.flags[f].(enabled := change.enabled, strategy := strategy)]
    requires RunTodo(t, Replacement(f, change.rules.value), ids, 0).Success?
    requires t'.rules == RunTodo(t, Replacement(f, change.rules.value), ids, 0).value.rules
    requires (forall i, j :: 0 <= i < j ==> ids(i) != ids(j)) && (forall i: nat :: ids(x) <= ids(i))
    ensures var key, environment, rows := change.key, EnvironmentOf(change), RuleRows(f, change.rules.value);
      && Evaluate(lib, t', key, environment, ctx) == Success(false)
      && var torn := TwoReads(lib, t, t', key, environment, ctx);
         && (rows == [] ==> torn == Success(true))
         && (x < |rows| && RuleVerdict(lib, ctx, rows[x]) != Success(false) ==> torn == RuleVerdict(lib, ctx, rows[x]))
  {
    var list, current := change.rules.value, t.flags[f].strategy;
    var row := t.flags[f].(enabled := change.enabled, strategy := strategy);
    FoundAfterUpdate(t, t', f, row, change.key, EnvironmentOf(change));
    NewRulesOf(t, t', f, list, ids, x);
    hide Consistent, FindFlag, RunTodo, RuleRows, RulesOf, RuleVerdict, AfterRules, Replacement;
    var rows, rules := RuleRows(f, list), RulesOf(t'.rules, f);
    if x < |rows| && RuleVerdict(lib, ctx, rows[x]) != Success(false) {
      NewRulesAreOfKind(f, current, list);
      FirstVoiceDecides(lib, ctx, current, rules, SameType(list).value);
    }
    NothingAfterRules(lib, current, ctx);
  }

  lemma NothingAfterRules(lib: Library, strategy: Strategy, ctx: EvaluationContext)
    ensures AfterRules(lib, strategy, ctx, []) == Success(true)
  {
  }

  /** The rule whose verdict gives a torn update away, if it brings any. */
  lemma TellingRule(
    lib: Library, ctx: EvaluationContext, f: Uuid, current: Strategy, before: Result<bool, Error>,
    change: UpdateFlagInput)
    returns (x: nat)
    requires !UpdateIsWhole(lib, ctx, f, current, before, change)
    ensures change.rules.Some? && !change.enabled && current != NoStrategy
    ensures ResolveStrategyForUpdate(current, change.rules).Success?
    ensures var rows := RuleRows(f, change.rules.value);
      if rows == [] then before != Success(true)
      else x < |rows| && RuleVerdict(lib, ctx, rows[x]) !in {Success(false), before}
  {
    hide RuleVerdict, RuleRows, ResolveStrategyForUpdate;
    var rows := RuleRows(f, change.rules.value);
    x := 0;
    if rows != [] {
      x :| x < |rows| && RuleVerdict(lib, ctx, rows[x]) !in {Success(false), before};
    }
  }

  /** An answer that neither tables give. */
  ghost predicate Torn(lib: Library, t: Tables, t': Tables, key: string, environment: string, ctx: EvaluationContext) {
    && TwoReads(lib, t, t', key, environment, ctx) != Evaluate(lib, t, key, environment, ctx)
    && TwoReads(lib, t, t', key, environment, ctx) != Evaluate(lib, t', key, environment, ctx)
  }

  lemma TornByUpdate(
    lib: Library, t: Tables, f: Uuid, change: UpdateFlagInput, ctx: EvaluationContext, issued: set<Uuid>)
    returns (ids: nat -> Uuid)
    requires Consistent(t) && ctx.userId != ""
    requires FindFlag(t.flags, change.key, EnvironmentOf(change)) == Some(f) && t.flags[f].enabled
    requires !UpdateIsWhole(
      lib, ctx, f, t.flags[f].strategy, Evaluate(lib, t, change.key, EnvironmentOf(change), ctx), change)
    ensures NewIds(ids, 0, issued, NO_WRITES)
    ensures var w := Work(t, Mutation.UpdateFlag(change), ids, 0);
      w.Success? && Torn(lib, t, w.value.0, change.key, EnvironmentOf(change), ctx)
  {
    hide Consistent, EnvironmentOf, FindFlag, Evaluate, TwoReads, RuleVerdict, RuleRows, ResolveStrategyForUpdate, Work,
      RunTodo, Replacement, UpdateIsWhole;
    var key, environment, current := change.key, EnvironmentOf(change), t.flags[f].strategy;
    var x := TellingRule(lib, ctx, f, current, Evaluate(lib, t, key, environment, ctx), change);
    var strategy := ResolveStrategyForUpdate(current, change.rules).value;
    ids := IdsWithLeast(issued, x);
    UpdateLeaves(t, change, f, strategy, ids);
    HalfAnswers(lib, t, Work(t, Mutation.UpdateFlag(change), ids, 0).value.0, f, strategy, change, ids, x, ctx);
  }

  /** An update that is not whole: disabling the flag with such rules can be seen half done. */
  lemma UpdateTears(
    lib: Library, s: State, f: Uuid, change: UpdateFlagInput, ctx: EvaluationContext) returns (steps: seq<Step>)
    requires Initial(s) && ctx.userId != ""
    requires FindFlag(s.committed.flags, change.key, EnvironmentOf(change)) == Some(f) && s.committed.flags[f].enabled
    requires !UpdateIsWhole(lib, ctx, f, s.committed.flags[f].strategy,
      Evaluate(lib, s.committed, change.key, EnvironmentOf(change), ctx), change)
    ensures Legal(s, steps) && RunOfOne(steps, Mutation.UpdateFlag(change))
    ensures Torn(lib, s.committed, Final(s, steps).committed, change.key, EnvironmentOf(change), ctx)
  {
    hide Consistent, EnvironmentOf, FindFlag, Evaluate, TwoReads, Work, UpdateIsWhole, NewIds, Legal, Final, RunOfOne,
      IdsOf;
    var m := Mutation.UpdateFlag(change);
    var ids := TornByUpdate(lib, s.committed, f, change, ctx, s.issued);
    steps := RunsAlone(s, m, ids);
    SameReads(s.committed, Final(s, steps).committed, Work(s.committed, m, ids, 0).value.0,
      lib, change.key, EnvironmentOf(change), ctx);
  }

  // ---------------------------------------------------------------- two updates between the reads

  lemma {:induction false} OtherRulesSkipped(lib: Library, userId: string, rules: seq<RuleRow>)
    requires forall r :: r in rules ==> r.kind == AttributeRule
    ensures EvaluatePercentageRules(lib, userId, rules) == Success(true)
  {
    if rules != [] {
      OtherRulesSkipped(lib, userId, rules[1..]);
    }
  }

  /** Disables the flag and clears its rules. */
  function Clearing(key: string, environment: string): UpdateFlagInput {
    UpdateFlagInput(key, Some(environment), false, Some([]))
  }

  /** Enables the flag with one attribute rule. */
  function ByAttribute(key: string, environment: string, value: string): UpdateFlagInput {
    UpdateFlagInput(key, Some(environment), true, Some([Some(RuleInput(AttributeKind, value))]))
  }

  /** What the second update leaves of a flag that the first one cleared. */
  lemma ByAttributeLeaves(
    t1: Tables, t2: Tables, f: Uuid, key: string, environment: string, value: string, ids: nat -> Uuid)
    requires Consistent(t1) && environment != "" && FindFlag(t1.flags, key, environment) == Some(f)
    requires t1.flags[f].strategy == NoStrategy
    requires (forall i, j :: 0 <= i < j ==> ids(i) != ids(j)) && (forall i: nat :: ids(0) <= ids(i))
    requires var w := Work(t1, Mutation.UpdateFlag(ByAttribute(key, environment, value)), ids, 0);
      w.Success? && t2.flags == w.value.0.flags && t2.rules == w.value.0.rules
    ensures FindFlag(t2.flags, key, environment) == Some(f)
    ensures t2.flags[f].strategy == AttributeStrategy && t2.flags[f].enabled
    ensures RulesOf(t2.rules, f) != []
    ensures forall r :: r in RulesOf(t2.rules, f) ==> r == RuleRow(f, AttributeRule, value)
  {
    var change := ByAttribute(key, environment, value);
    var row := t1.flags[f].(enabled := true, strategy := AttributeStrategy);
    assert EnvironmentOf(change) == environment;
    OneRow(f, value);
    assert ResolveStrategyForUpdate(NoStrategy, change.rules) == Success(AttributeStrategy);
    hide Consistent, FindFlag, Work, RunTodo, Replacement, RuleRows, RulesOf, EnvironmentOf, ResolveStrategyForUpdate;
    UpdateLeaves(t1, change, f, AttributeStrategy, ids);
    FoundAfterUpdate(t1, t2, f, row, key, environment);
    NewRulesOf(t1, t2, f, change.rules.value, ids, 0);
  }

  /** Percentage rules skipped, attribute rules asked. */
  lemma SkippedOrAsked(lib: Library, t: Tables, t2: Tables, f: Uuid, key: string, environment: string, value: string,
    ctx: EvaluationContext)
    requires ctx.userId != "" && FindFlag(t.flags, key, environment) == Some(f) == FindFlag(t2.flags, key, environment)
    requires t.flags[f].enabled && t.flags[f].strategy == PercentageStrategy
    requires t2.flags[f].strategy == AttributeStrategy && RulesOf(t2.rules, f) != []
    requires forall r :: r in RulesOf(t2.rules, f) ==> r == RuleRow(f, AttributeRule, value)
    requires EvaluateAttributeRule(lib, ctx, value) == Success(false)
    ensures TwoReads(lib, t, t2, key, environment, ctx) == Success(true)
    ensures Evaluate(lib, t2, key, environment, ctx) == Success(false)
  {
    hide FindFlag, RulesOf, EvaluateAttributeRule, EvaluatePercentageRules, EvaluateAttributeRules;
    var rules := RulesOf(t2.rules, f);
    OtherRulesSkipped(lib, ctx.userId, rules);
    AttributeAnswer(lib, ctx, rules);
  }

  lemma OneRow(f: Uuid, value: string)
    ensures RuleRows(f, [Some(RuleInput(AttributeKind, value))]) == [RuleRow(f, AttributeRule, value)]
  {
    var list := [Some(RuleInput(AttributeKind, value))];
    assert list[..0] == [];
  }

  /**
   Two updates, one after the other, between the reads of an evaluation: it goes by the old
   strategy, finds only rules of the other type, skips them all and answers true, although
   neither update leaves a state that does.
   */
  lemma TwoUpdatesFallThrough(
    lib: Library, s: State, f: Uuid, key: string, environment: string, value: string, ctx: EvaluationContext)
    returns (first: seq<Step>, second: seq<Step>)
    requires Initial(s) && environment != "" && ctx.userId != ""
    requires FindFlag(s.committed.flags, key, environment) == Some(f) && s.committed.flags[f].enabled
    requires s.committed.flags[f].strategy == PercentageStrategy
    requires EvaluateAttributeRule(lib, ctx, value) == Success(false)
    ensures Legal(s, first) && OnlyOf(first, 0, Mutation.UpdateFlag(Clearing(key, environment)))
    ensures Legal(s, first + second) && OnlyOf(second, 1, Mutation.UpdateFlag(ByAttribute(key, environment, value)))
    ensures Evaluate(lib, Final(s, first).committed, key, environment, ctx) == Success(false)
    ensures Evaluate(lib, Final(s, first + second).committed, key, environment, ctx) == Success(false)
    ensures TwoReads(lib, s.committed, Final(s, first + second).committed, key, environment, ctx) == Success(true)
  {
    first := Clears(s, f, key, environment);
    hide Initial, Legal, Final, FindFlag, Evaluate, TwoReads, EvaluateAttributeRule, RulesOf, OnlyOf;
    GoodAlways(s, first);
    var c1 := Final(s, first).committed;
    second := ThenByAttribute(s, first, f, key, environment, value);
    SkippedOrAsked(lib, s.committed, Final(s, first + second).committed, f, key, environment, value, ctx);
    DisabledSaysNo(lib, c1, f, key, environment, ctx);
  }

  lemma DisabledSaysNo(lib: Library, t: Tables, f: Uuid, key: string, environment: string, ctx: EvaluationContext)
    requires ctx.userId != "" && FindFlag(t.flags, key, environment) == Some(f) && !t.flags[f].enabled
    ensures Evaluate(lib, t, key, environment, ctx) == Success(false)
  {
  }

  lemma Clears(s: State, f: Uuid, key: string, environment: string) returns (steps: seq<Step>)
    requires Initial(s) && environment != "" && FindFlag(s.committed.flags, key, environment) == Some(f)
    ensures Legal(s, steps) && OnlyOf(steps, 0, Mutation.UpdateFlag(Clearing(key, environment)))
    ensures var end := Final(s, steps);
      && FindFlag(end.committed.flags, key, environment) == Some(f)
      && !end.committed.flags[f].enabled && end.committed.flags[f].strategy == NoStrategy
      && end.txs.Keys <= {0} && forall j :: j in end.txs ==> Ended(end.txs[j].phase)
  {
    hide Work, NewIds, IdsOf, RunTodo, Replacement, Consistent, FindFlag, OnlyOf;
    var change, c := Clearing(key, environment), s.committed;
    var ids := IdsAbove(s.issued);
    UpdateLeaves(c, change, f, NoStrategy, ids);
    steps := RunsNext(s, [], 0, Mutation.UpdateFlag(change), ids);
    assert [] + steps == steps;
    OnlyTxOf(s, 0, Mutation.UpdateFlag(change), steps);
    hide Legal, Final;
    var row := c.flags[f].(enabled := false, strategy := NoStrategy);
    FoundAfterUpdate(c, Final(s, steps).committed, f, row, key, environment);
  }

  lemma ThenByAttribute(s: State, first: seq<Step>, f: Uuid, key: string, environment: string, value: string)
    returns (second: seq<Step>)
    requires Initial(s) && environment != "" && Legal(s, first) && Good(Final(s, first))
    requires var end := Final(s, first);
      && FindFlag(end.committed.flags, key, environment) == Some(f)
      && !end.committed.flags[f].enabled && end.committed.flags[f].strategy == NoStrategy
      && end.txs.Keys <= {0} && forall j :: j in end.txs ==> Ended(end.txs[j].phase)
    ensures Legal(s, first + second) && OnlyOf(second, 1, Mutation.UpdateFlag(ByAttribute(key, environment, value)))
    ensures var t := Final(s, first + second).committed;
      && FindFlag(t.flags, key, environment) == Some(f)
      && t.flags[f].strategy == AttributeStrategy && t.flags[f].enabled
      && RulesOf(t.rules, f) != [] && forall r :: r in RulesOf(t.rules, f) ==> r == RuleRow(f, AttributeRule, value)
  {
    hide Initial, Legal, Final, FindFlag, RulesOf, OnlyOf, Good, Consistent, IdsOf;
    var end, change := Final(s, first), ByAttribute(key, environment, value);
    RestHoldsNothing(end, 1);
    var ids := IdsWithLeast(end.issued, 0);
    assert ResolveStrategyForUpdate(NoStrategy, change.rules) == Success(AttributeStrategy);
    assert EnvironmentOf(change) == environment;
    UpdateLeaves(end.committed, change, f, AttributeStrategy, ids);
    hide Work, RunTodo, Replacement, ResolveStrategyForUpdate, EnvironmentOf, Alone;
    second := RunsNext(s, first, 1, Mutation.UpdateFlag(change), ids);
    ByAttributeLeaves(end.committed, Final(s, first + second).committed, f, key, environment, value, ids);
  }
}
