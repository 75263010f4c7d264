/** Rule inputs and rollout strategies: the validation half of internal/flags/service.go. */
module FlagRules {
  import opened Wrappers
  import opened Schema
  import opened Errors

  datatype RuleKind = PercentageKind | AttributeKind | UnknownKind(name: string)

  datatype StrategyInput = NoneInput | PercentageInput | AttributeInput | UnknownInput(name: string)

  datatype RuleInput = RuleInput(kind: RuleKind, value: string)

  datatype CreateFlagInput = CreateFlagInput(
    key: string, description: Option<string>, environment: string,
    strategy: Option<StrategyInput>, rules: seq<Option<RuleInput>>)

  /** rules is None where the source has a nil slice. */
  datatype UpdateFlagInput = UpdateFlagInput(
    key: string, environment: Option<string>, enabled: bool, rules: Option<seq<Option<RuleInput>>>)

  const DEV := "dev"

  function StrategyFromInput(s: Option<StrategyInput>): Strategy {
    match s
    case Some(PercentageInput) => PercentageStrategy
    case Some(AttributeInput) => AttributeStrategy
    case _ => NoStrategy
  }

  function StrategyOf(t: RuleType): Strategy {
    if t.PercentageRule? then PercentageStrategy else AttributeStrategy
  }

  function RuleTypeOf(r: Option<RuleInput>): RuleType {
    match r
    case None => UntypedRule
    case Some(input) => if input.kind.PercentageKind? then PercentageRule else AttributeRule
  }

  function TypesOf(rules: seq<Option<RuleInput>>): (types: seq<RuleType>)
    ensures |types| == |rules|
    ensures forall i :: 0 <= i < |rules| ==> types[i] == RuleTypeOf(rules[i])
  {
    seq(|rules|, i requires 0 <= i < |rules| => RuleTypeOf(rules[i]))
  }

  /** What validateRulesSameType answers: the common type, or the list of types that differ. */
  function SameType(rules: seq<Option<RuleInput>>): (r: Result<RuleType, Error>)
    ensures r.Success? && rules != [] ==> forall i :: 0 <= i < |rules| ==> RuleTypeOf(rules[i]) == r.value
    ensures r.Failure? ==> exists i, j :: 0 <= i < j < |rules| && RuleTypeOf(rules[i]) != RuleTypeOf(rules[j])
  {
    if rules == [] then Success(UntypedRule)
    else if forall i :: 0 <= i < |rules| ==> RuleTypeOf(rules[i]) == RuleTypeOf(rules[0])
    then Success(RuleTypeOf(rules[0]))
    else Failure(MixedRuleTypes(TypesOf(rules)))
  }

  method ValidateRulesSameType(rules: seq<Option<RuleInput>>) returns (r: Result<RuleType, Error>)
    ensures r == SameType(rules)
  {
    if |rules| == 0 {
      return Success(UntypedRule);
    }
    var first := RuleTypeOf(rules[0]);
    var types: seq<RuleType> := [];
    for i := 0 to |rules|
      invariant types == TypesOf(rules)[..i]
    {
      types := types + [RuleTypeOf(rules[i])];
    }
    assert types == TypesOf(rules);
    for i := 1 to |rules|
      invariant forall j :: 0 <= j < i ==> RuleTypeOf(rules[j]) == first
    {
      if RuleTypeOf(rules[i]) != first {
        return Failure(MixedRuleTypes(types));
      }
    }
    return Success(first);
  }

  /** The rows ruleInputsToRules makes: nil inputs dropped, order kept. */
  function RuleRows(flag: Uuid, rules: seq<Option<RuleInput>>): (rows: seq<RuleRow>)
    ensures forall i :: 0 <= i < |rows| ==> rows[i].flag == flag && !rows[i].kind.UntypedRule?
  {
    if rules == [] then []
    else
      var rest := RuleRows(flag, rules[..|rules| - 1]);
      match rules[|rules| - 1]
      case None => rest
      case Some(input) => rest + [RuleRow(flag, RuleTypeOf(Some(input)), input.value)]
  }

  /** The rules an update brings, nil inputs dropped. */
  function NewRows(f: Uuid, rules: Option<seq<Option<RuleInput>>>): seq<RuleRow> {
    match rules
    case None => []
    case Some(list) => RuleRows(f, list)
  }

  method RuleInputsToRules(flag: Uuid, inputs: seq<Option<RuleInput>>) returns (rows: seq<RuleRow>)
    ensures rows == RuleRows(flag, inputs)
  {
    rows := [];
    for i := 0 to |inputs|
      invariant rows == RuleRows(flag, inputs[..i])
    {
      assert inputs[..i + 1][..i] == inputs[..i];
      if inputs[i].Some? {
        rows := rows + [RuleRow(flag, RuleTypeOf(inputs[i]), inputs[i].value.value)];
      }
    }
    assert inputs[..|inputs|] == inputs;
  }

  /** Rules of one type all become rows of that type. */
  lemma {:induction false} RowsKeepType(flag: Uuid, rules: seq<Option<RuleInput>>, kind: RuleType)
    requires forall i :: 0 <= i < |rules| ==> RuleTypeOf(rules[i]) == kind
    ensures forall i :: 0 <= i < |RuleRows(flag, rules)| ==> RuleRows(flag, rules)[i].kind == kind
  {
    if rules != [] {
      var init := rules[..|rules| - 1];
      assert forall i :: 0 <= i < |init| ==> init[i] == rules[i];
      RowsKeepType(flag, init, kind);
    }
  }

  function ResolveStrategyForCreate(input: CreateFlagInput): Result<Strategy, Error> {
    var strategy := StrategyFromInput(input.strategy);
    if |input.rules| == 0 then Success(strategy)
    else
      match SameType(input.rules)
      case Failure(e) => Failure(e)
      case Success(kind) =>
        if strategy != NoStrategy && strategy != StrategyOf(kind) then Failure(RulesAgainstRequestedStrategy)
        else Success(StrategyOf(kind))
  }

  /** The strategy an update leaves on the flag: the branches of applyRulesUpdateWithStore. */
  function ResolveStrategyForUpdate(
    current: Strategy, rules: Option<seq<Option<RuleInput>>>): Result<Strategy, Error>
  {
    match rules
    case None => Success(current)
    case Some(list) =>
      if |list| == 0 then Success(NoStrategy)
      else
        match SameType(list)
        case Failure(e) => Failure(e)
        case Success(kind) =>
          if current != NoStrategy && current != StrategyOf(kind) then Failure(RulesAgainstCurrentStrategy(current))
          else Success(StrategyOf(kind))
  }

  /** The rules of an accepted update all ask for the strategy it leaves. */
  lemma RowsAskForStrategy(current: Strategy, list: seq<Option<RuleInput>>, f: Uuid)
    requires RuleRows(f, list) != [] && ResolveStrategyForUpdate(current, Some(list)).Success?
    ensures forall i :: 0 <= i < |RuleRows(f, list)| ==>
      StrategyOf(RuleRows(f, list)[i].kind) == ResolveStrategyForUpdate(current, Some(list)).value
  {
    var kind := SameType(list).value;
    RowsKeepType(f, list, kind);
  }
}
