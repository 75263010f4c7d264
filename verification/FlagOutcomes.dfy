/**
 What createFlag, updateFlag and deleteFlag do, case by case, in terms of what the client
 sends and what is stored: when and why they are refused, and what is there afterwards.
 */
module FlagOutcomes {
  import opened Wrappers
  import opened Schema
  import opened Statements
  import opened Errors
  import opened FlagRules
  import opened Protocol
  import opened FlagPlans
  import opened Outcomes

  // ---------------------------------------------------------------- rules a client sends

  predicate IsPercentage(rule: Option<RuleInput>) {
    rule.Some? && rule.value.kind.PercentageKind?
  }

  /** Every kind but the percentage kind counts as the attribute kind. */
  predicate IsAttribute(rule: Option<RuleInput>) {
    rule.Some? && !rule.value.kind.PercentageKind?
  }

  predicate AllPercentage(list: seq<Option<RuleInput>>) {
    forall i :: 0 <= i < |list| ==> IsPercentage(list[i])
  }

  predicate AllAttribute(list: seq<Option<RuleInput>>) {
    forall i :: 0 <= i < |list| ==> IsAttribute(list[i])
  }

  predicate AllNil(list: seq<Option<RuleInput>>) {
    forall i :: 0 <= i < |list| ==> list[i] == None
  }

  predicate OneKind(list: seq<Option<RuleInput>>) {
    AllPercentage(list) || AllAttribute(list) || AllNil(list)
  }

  /** The inputs that are not nil, in their order. */
  function Given(list: seq<Option<RuleInput>>): seq<RuleInput> {
    if list == [] then []
    else if list[0] == None then Given(list[1..])
    else [list[0].value] + Given(list[1..])
  }

  /** The row is a rule of the flag with the kind and the value of the input. */
  predicate Stands(row: RuleRow, f: Uuid, input: RuleInput) {
    && row.flag == f && row.value == input.value
    && row.kind == if input.kind.PercentageKind? then PercentageRule else AttributeRule
  }

  /** The flag has exactly the given rules, in their order under the ids from n on. */
  ghost predicate HasGiven(
    rules: map<Uuid, RuleRow>, f: Uuid, given: seq<RuleInput>, ids: nat -> Uuid, n: nat)
  {
    && (forall k: nat :: n <= k < n + |given| ==> ids(k) in rules && Stands(rules[ids(k)], f, given[k - n]))
    && (forall r :: r in rules && rules[r].flag == f ==> exists k: nat :: n <= k < n + |given| && r == ids(k))
  }

  ghost predicate OtherRulesStay(rules: map<Uuid, RuleRow>, rules': map<Uuid, RuleRow>, f: Uuid) {
    && (forall r :: r in rules && rules[r].flag != f ==> r in rules' && rules'[r] == rules[r])
    && (forall r :: r in rules' && rules'[r].flag != f ==> r in rules)
  }

  ghost predicate OnlyFlagsChange(t: Tables, t': Tables) {
    && t'.users == t.users && t'.experiments == t.experiments && t'.variants == t.variants
    && t'.assignments == t.assignments
  }

  // ---------------------------------------------------------------- what the definitions come to

  lemma KindsIff(list: seq<Option<RuleInput>>)
    requires list != []
    ensures SameType(list).Success? <==> OneKind(list)
    ensures AllPercentage(list) ==> SameType(list) == Success(PercentageRule)
    ensures AllAttribute(list) ==> SameType(list) == Success(AttributeRule)
    ensures AllNil(list) ==> SameType(list) == Success(UntypedRule)
    ensures SameType(list).Failure? ==> SameType(list).error.MixedRuleTypes?
  {
    if SameType(list).Success? {
      assert forall i :: 0 <= i < |list| ==> RuleTypeOf(list[i]) == RuleTypeOf(list[0]);
    }
    assert IsPercentage(list[0]) || IsAttribute(list[0]) || list[0] == None;
  }

  lemma {:induction false} GivenSnoc(list: seq<Option<RuleInput>>, last: Option<RuleInput>)
    ensures Given(list + [last]) == Given(list) + if last == None then [] else [last.value]
  {
    if list == [] {
      assert list + [last] == [last] && [last][1..] == [];
    } else {
      assert (list + [last])[0] == list[0] && (list + [last])[1..] == list[1..] + [last];
      GivenSnoc(list[1..], last);
    }
  }

  lemma {:induction false} RowsAreGiven(f: Uuid, list: seq<Option<RuleInput>>)
    ensures |RuleRows(f, list)| == |Given(list)|
    ensures forall i :: 0 <= i < |Given(list)| ==> Stands(RuleRows(f, list)[i], f, Given(list)[i])
  {
    if list != [] {
      var init, last := list[..|list| - 1], list[|list| - 1];
      assert list == init + [last];
      GivenSnoc(init, last);
      RowsAreGiven(f, init);
    }
  }

  /** Rules of a flag after a replacement. */
  lemma ReplacedByGiven(t: Tables, t': Tables, f: Uuid, list: seq<Option<RuleInput>>, ids: nat -> Uuid, n: nat)
    requires NewIn(t, ids, n)
    requires t'.rules == t.rules - RuleIds(t.rules, f) + Numbered(RuleRows(f, list), ids, n)
    ensures HasGiven(t'.rules, f, Given(list), ids, n) && OtherRulesStay(t.rules, t'.rules, f)
  {
    var rows, given := RuleRows(f, list), Given(list);
    RowsAreGiven(f, list);
    hide RuleRows, Given, Numbered;
    forall k: nat | n <= k < n + |given|
      ensures ids(k) in t'.rules && Stands(t'.rules[ids(k)], f, given[k - n])
    {
      NumberedHas(rows, ids, n, k - n);
      assert t'.rules[ids(n + (k - n))] == rows[k - n];
    }
    forall r | r in t'.rules && t'.rules[r].flag == f
      ensures exists k: nat :: n <= k < n + |given| && r == ids(k)
    {
      NumberedOnly(rows, ids, n, r);
    }
    forall r | r in t.rules && t.rules[r].flag != f
      ensures r in t'.rules && t'.rules[r] == t.rules[r]
    {
      NumberedOnly(rows, ids, n, r);
    }
    forall r | r in t'.rules && t'.rules[r].flag != f
      ensures r in t.rules
    {
      NumberedOnly(rows, ids, n, r);
    }
  }

  // ---------------------------------------------------------------- createFlag

  predicate IsFlag(t: Tables, f: Uuid, key: string, environment: string) {
    f in t.flags && t.flags[f].key == key && t.flags[f].environment == environment
  }

  ghost predicate KeyStored(t: Tables, key: string, environment: string) {
    exists f: Uuid :: IsFlag(t, f, key, environment)
  }

  predicate Mixed(rules: seq<Option<RuleInput>>) {
    rules != [] && !OneKind(rules)
  }

  /** The error lists the kinds of all rules. */
  predicate ListsKinds(e: Error, rules: seq<Option<RuleInput>>) {
    && e.MixedRuleTypes? && |e.types| == |rules|
    && forall i :: 0 <= i < |rules| ==>
         && (e.types[i] == PercentageRule <==> IsPercentage(rules[i]))
         && (e.types[i] == AttributeRule <==> IsAttribute(rules[i]))
  }

  /** The rules are of another kind than the strategy the client asks for. */
  predicate Contradicts(requested: Option<StrategyInput>, rules: seq<Option<RuleInput>>) {
    && rules != []
    && (|| (requested == Some(PercentageInput) && !AllPercentage(rules))
        || (requested == Some(AttributeInput) && AllPercentage(rules)))
  }

  /** The strategy is that of the rules, or without rules the one asked for. */
  predicate StrategyCreated(input: CreateFlagInput, strategy: Strategy) {
    && (strategy == PercentageStrategy <==>
          if input.rules == [] then input.strategy == Some(PercentageInput) else AllPercentage(input.rules))
    && (strategy == AttributeStrategy <==>
          if input.rules == [] then input.strategy == Some(AttributeInput) else !AllPercentage(input.rules))
  }

  lemma StrategyDecided(input: CreateFlagInput)
    ensures match ResolveStrategyForCreate(input)
      case Success(strategy) =>
        !Mixed(input.rules) && !Contradicts(input.strategy, input.rules) && StrategyCreated(input, strategy)
      case Failure(e) =>
        if Mixed(input.rules) then ListsKinds(e, input.rules)
        else Contradicts(input.strategy, input.rules) && e == RulesAgainstRequestedStrategy
  {
    if input.rules != [] {
      KindsIff(input.rules);
      assert AllPercentage(input.rules) ==> IsPercentage(input.rules[0]);
    }
  }

  ghost predicate CreateRefused(t: Tables, input: CreateFlagInput, actor: IdText, e: Error) {
    if KeyStored(t, input.key, input.environment) then e == DuplicateKey(input.key, input.environment)
    else if Mixed(input.rules) then ListsKinds(e, input.rules)
    else if Contradicts(input.strategy, input.rules) then e == RulesAgainstRequestedStrategy
    else actor.NotUuid? && e == Stored(InvalidText)
  }

  /** The flag is there, disabled, with the given rules, and nothing else has changed. */
  ghost predicate FlagCreated(
    t: Tables, t': Tables, input: CreateFlagInput, actor: IdText, ids: nat -> Uuid, n: nat, answer: Answer)
  {
    var f := ids(n);
    && f in t'.flags && t'.flags == t.flags[f := t'.flags[f]] && answer == FlagAnswer(f, t'.flags[f])
    && t'.flags[f].key == input.key && t'.flags[f].environment == input.environment
    && t'.flags[f].description == input.description && !t'.flags[f].enabled
    && StrategyCreated(input, t'.flags[f].strategy)
    && HasGiven(t'.rules, f, Given(input.rules), ids, n + 1) && OtherRulesStay(t.rules, t'.rules, f)
    && OnlyFlagsChange(t, t') && Logged(t, t', FeatureFlag, Canonical(f), Create, actor)
  }

  lemma NoRulesBefore(t: Tables, f: Uuid)
    requires Consistent(t) && f !in t.flags
    ensures RuleIds(t.rules, f) == {}
  {
    hide UsersOk, VariantsOk, AssignmentsOk, UniqueBy;
  }

  lemma KeyFound(t: Tables, key: string, environment: string)
    ensures KeyStored(t, key, environment) <==> FindFlag(t.flags, key, environment).Some?
    ensures KeyStored(t, key, environment) <==> FlagKeyTaken(t.flags, (key, environment), {})
  {
    if f :| IsFlag(t, f, key, environment) {
      assert FlagKeyOf(t.flags[f]) == (key, environment);
    }
    if f :| f in t.flags && FlagKeyOf(t.flags[f]) == (key, environment) {
      assert IsFlag(t, f, key, environment);
    }
  }

  /** What a create makes of tables that hold no flag of that key. */
  lemma CreateWorks(t: Tables, input: CreateFlagInput, row: FlagRow, ids: nat -> Uuid, n: nat)
    requires Consistent(t) && NewIn(t, ids, n) && !KeyStored(t, input.key, input.environment)
    requires Decide(t, Mutation.CreateFlag(input)) == Success(NewRow(InsertFlag(row)))
    requires FlagKeyOf(row) == (input.key, input.environment)
    ensures var w := Work(t, Mutation.CreateFlag(input), ids, n);
      && w.Success? && w.value.1 == ids(n)
      && w.value.0 == t.(flags := t.flags[ids(n) := row], rules := w.value.0.rules)
      && HasGiven(w.value.0.rules, ids(n), Given(input.rules), ids, n + 1)
      && OtherRulesStay(t.rules, w.value.0.rules, ids(n))
  {
    var f := ids(n);
    KeyFound(t, input.key, input.environment);
    NoRulesBefore(t, f);
    var t1 := t.(flags := t.flags[f := row]);
    assert Exec(t, InsertFlag(row), f) == Applied(t1);
    hide Decide, FindFlag, FlagKeyTaken, Consistent, HasGiven, OtherRulesStay, RuleIds;
    var t2 := if input.rules == [] then t1 else
      t1.(rules := t1.rules - RuleIds(t1.rules, f) + Numbered(RuleRows(f, input.rules), ids, n + 1));
    if input.rules == [] {
      assert RunTodo(t1, [], ids, n + 1) == Success(t1);
      assert t1.rules == t.rules - {} + map[];
      assert RuleRows(f, []) == [];
    } else {
      ReplacementNumbers(t1, f, input.rules, ids, n + 1);
    }
    assert NewIn(t, ids, n + 1);
    ReplacedByGiven(t, t2, f, input.rules, ids, n + 1);
  }

  /** createFlag: when it is refused, with which error, and what it leaves when it is not. */
  lemma CreateFlagOutcome(t: Tables, input: CreateFlagInput, actor: IdText, ids: nat -> Uuid, n: nat)
    requires Consistent(t) && NewIn(t, ids, n)
    ensures match Serial(t, Mutation.CreateFlag(input), actor, ids, n)
      case Refused(e) => CreateRefused(t, input, actor, e)
      case Committed(t', answer) =>
        && !KeyStored(t, input.key, input.environment)
        && !Mixed(input.rules) && !Contradicts(input.strategy, input.rules)
        && FlagCreated(t, t', input, actor, ids, n, answer)
      case NothingDeleted => false
  {
    StrategyDecided(input);
    KeyFound(t, input.key, input.environment);
    var m := Mutation.CreateFlag(input);
    hide Consistent, NewIn, FindFlag, Mixed, Contradicts, ListsKinds, StrategyCreated, HasGiven, OtherRulesStay,
      KeyStored, ResolveStrategyForCreate, RunTodo, Exec, Given;
    if Decide(t, m).Success? {
      var row := Decide(t, m).value.insert.flag;
      CreateWorks(t, input, row, ids, n);
      hide Work;
    }
  }

  // ---------------------------------------------------------------- updateFlag

  /** The environment an update is meant for: dev if it names none or the empty one. */
  predicate MeantFor(change: UpdateFlagInput, environment: string) {
    if change.environment == None || change.environment == Some("") then environment == "dev"
    else change.environment == Some(environment)
  }

  /** A flag with a strategy takes no rules of the other kind. */
  predicate Against(strategy: Strategy, list: seq<Option<RuleInput>>) {
    && list != []
    && (|| (strategy == PercentageStrategy && !AllPercentage(list))
        || (strategy == AttributeStrategy && AllPercentage(list)))
  }

  predicate StrategyUpdated(before: Strategy, rules: Option<seq<Option<RuleInput>>>, after: Strategy) {
    match rules
    case None => after == before
    case Some(list) =>
      after ==
        if list == [] then NoStrategy else if AllPercentage(list) then PercentageStrategy else AttributeStrategy
  }

  lemma UpdateDecided(before: Strategy, rules: Option<seq<Option<RuleInput>>>)
    ensures match ResolveStrategyForUpdate(before, rules)
      case Success(after) =>
        && (rules.Some? ==> !Mixed(rules.value) && !Against(before, rules.value))
        && StrategyUpdated(before, rules, after)
      case Failure(e) =>
        && rules.Some?
        && if Mixed(rules.value) then ListsKinds(e, rules.value)
           else Against(before, rules.value) && e == RulesAgainstCurrentStrategy(before)
  {
    if rules.Some? && rules.value != [] {
      KindsIff(rules.value);
      assert AllPercentage(rules.value) ==> IsPercentage(rules.value[0]);
    }
  }

  ghost predicate UpdateRefused(t: Tables, f: Uuid, change: UpdateFlagInput, actor: IdText, e: Error)
    requires f in t.flags
  {
    if change.rules.Some? && Mixed(change.rules.value) then ListsKinds(e, change.rules.value)
    else if change.rules.Some? && Against(t.flags[f].strategy, change.rules.value) then
      e == RulesAgainstCurrentStrategy(t.flags[f].strategy)
    else actor.NotUuid? && e == Stored(InvalidText)
  }

  /** The flag is switched as asked, its rules are kept or replaced, and nothing else has changed. */
  ghost predicate FlagUpdated(
    t: Tables, t': Tables, f: Uuid, change: UpdateFlagInput, actor: IdText, ids: nat -> Uuid, n: nat, answer: Answer)
    requires f in t.flags
  {
    && f in t'.flags && t'.flags == t.flags[f := t'.flags[f]] && answer == FlagAnswer(f, t'.flags[f])
    && t'.flags[f] == t.flags[f].(enabled := change.enabled, strategy := t'.flags[f].strategy)
    && StrategyUpdated(t.flags[f].strategy, change.rules, t'.flags[f].strategy)
    && RulesUpdated(t.rules, t'.rules, f, change.rules, ids, n)
    && OnlyFlagsChange(t, t') && Logged(t, t', FeatureFlag, Canonical(f), Update, actor)
  }

  ghost predicate RulesUpdated(
    rules: map<Uuid, RuleRow>, rules': map<Uuid, RuleRow>, f: Uuid, given: Option<seq<Option<RuleInput>>>,
    ids: nat -> Uuid, n: nat)
  {
    match given
    case None => rules' == rules
    case Some(list) => HasGiven(rules', f, Given(list), ids, n) && OtherRulesStay(rules, rules', f)
  }

  lemma RulesWork(
    t: Tables, f: Uuid, rules: Option<seq<Option<RuleInput>>>, ids: nat -> Uuid, n: nat)
    requires f in t.flags && NewIn(t, ids, n)
    ensures var r := RunTodo(t, RulesTodo(f, rules), ids, n);
      && r.Success? && r.value == t.(rules := r.value.rules)
      && RulesUpdated(t.rules, r.value.rules, f, rules, ids, n)
  {
    if rules.Some? {
      ReplacementNumbers(t, f, rules.value, ids, n);
      hide RuleRows, Numbered, Given, HasGiven, OtherRulesStay, RunTodo, Replacement;
      var t' := t.(rules := t.rules - RuleIds(t.rules, f) + Numbered(RuleRows(f, rules.value), ids, n));
      ReplacedByGiven(t, t', f, rules.value, ids, n);
    }
  }

  lemma UpdateWorks(t: Tables, change: UpdateFlagInput, f: Uuid, ids: nat -> Uuid, n: nat)
    requires Consistent(t) && NewIn(t, ids, n)
    requires FindFlag(t.flags, change.key, EnvironmentOf(change)) == Some(f)
    ensures var w := Work(t, Mutation.UpdateFlag(change), ids, n);
      match ResolveStrategyForUpdate(t.flags[f].strategy, change.rules)
      case Failure(e) => w == Failure(e)
      case Success(strategy) =>
        && w.Success? && w.value.1 == f
        && w.value.0 == t.(flags := t.flags[f := t.flags[f].(enabled := change.enabled, strategy := strategy)],
             rules := w.value.0.rules)
        && RulesUpdated(t.rules, w.value.0.rules, f, change.rules, ids, n)
  {
    UpdateStages(t, change, f, ids, n, 0);
    RulesWork(t, f, change.rules, ids, n);
    hide Consistent, NewIn, FindFlag, ResolveStrategyForUpdate, RulesUpdated, Work, RunTodo, Exec;
    var strategy := ResolveStrategyForUpdate(t.flags[f].strategy, change.rules);
    if strategy.Success? {
      var row := t.flags[f].(enabled := change.enabled, strategy := strategy.value);
      RowApplied(RunTodo(t, RulesTodo(f, change.rules), ids, n).value, f, row, 0);
    }
  }

  /** updateFlag: when it is refused, with which error, and what it leaves when it is not. */
  lemma UpdateFlagOutcome(
    t: Tables, change: UpdateFlagInput, environment: string, actor: IdText, ids: nat -> Uuid, n: nat)
    requires Consistent(t) && NewIn(t, ids, n) && MeantFor(change, environment)
    ensures match Serial(t, Mutation.UpdateFlag(change), actor, ids, n)
      case Refused(e) =>
        if !KeyStored(t, change.key, environment) then e == FlagNotFound(change.key, environment)
        else exists f: Uuid :: IsFlag(t, f, change.key, environment) && UpdateRefused(t, f, change, actor, e)
      case Committed(t', answer) =>
        && (change.rules.Some? ==> !Mixed(change.rules.value))
        && exists f: Uuid ::
             && IsFlag(t, f, change.key, environment)
             && (change.rules.Some? ==> !Against(t.flags[f].strategy, change.rules.value))
             && FlagUpdated(t, t', f, change, actor, ids, n, answer)
      case NothingDeleted => false
  {
    hide Consistent, NewIn, FindFlag, KeyStored, ResolveStrategyForUpdate, Mixed, Against, ListsKinds, StrategyUpdated,
      RulesUpdated, MeantFor, EnvironmentOf, Work;
    KeyFound(t, change.key, environment);
    EnvironmentIsMeant(change, environment);
    MissingFlagWork(t, Mutation.UpdateFlag(change), ids, n);
    var found := FindFlag(t.flags, change.key, environment);
    if found.Some? {
      var f := found.value;
      assert IsFlag(t, f, change.key, environment);
      UpdateDecided(t.flags[f].strategy, change.rules);
      UpdateWorks(t, change, f, ids, n);
    }
  }

  lemma EnvironmentIsMeant(change: UpdateFlagInput, environment: string)
    requires MeantFor(change, environment)
    ensures EnvironmentOf(change) == environment
  {
  }

  // ---------------------------------------------------------------- deleteFlag

  /** deleteFlag: the flag and its rules are gone, and nothing else has changed. */
  lemma DeleteFlagOutcome(t: Tables, key: string, environment: string, actor: IdText, ids: nat -> Uuid, n: nat)
    ensures match Serial(t, Mutation.DeleteFlag(key, environment), actor, ids, n)
      case Refused(e) =>
        if !KeyStored(t, key, environment) then e == FlagNotFound(key, environment)
        else actor.NotUuid? && e == Stored(InvalidText)
      case Committed(t', answer) =>
        && answer == Deleted(true)
        && exists f: Uuid ::
             && IsFlag(t, f, key, environment)
             && t'.flags == t.flags - {f} && OtherRulesStay(t.rules, t'.rules, f)
             && (forall r :: r in t'.rules ==> t'.rules[r].flag != f)
             && OnlyFlagsChange(t, t') && Logged(t, t', FeatureFlag, Canonical(f), Delete, actor)
      case NothingDeleted => false
  {
    KeyFound(t, key, environment);
    var m, found := Mutation.DeleteFlag(key, environment), FindFlag(t.flags, key, environment);
    if found.Some? {
      var f := found.value;
      var t' := t.(flags := t.flags - {f}, rules := t.rules - RuleIds(t.rules, f));
      assert IsFlag(t, f, key, environment);
      RunThenLast(t, [], Statement.DeleteFlag(f), ids, n, 0);
      assert [] + [Statement.DeleteFlag(f)] == [Statement.DeleteFlag(f)];
      assert Work(t, m, ids, n) == Success((t', f));
      hide FindFlag, KeyStored, Work;
      assert OtherRulesStay(t.rules, t'.rules, f);
    }
  }
}
