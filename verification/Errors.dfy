/** The typed errors of the packages, and the unwrap chain errors.As walks. */
module Errors {
  import opened Schema
  import opened Statements

  datatype WeightFault = NoVariants | NegativeWeight | WrongSum

  datatype RuleFault =
    NotANumber | OutOfPercentRange | BadJson | EmptySuffix | EmptyValues | UnknownOperator(op: string)

  datatype Error =
    | DuplicateKey(key: string, environment: string)
    | DuplicateExperiment(key: string, environment: string)
    | DuplicateEmail(email: string)
    | FlagNotFound(key: string, environment: string)
    | FlagIdNotFound(flagId: Uuid)
    | UserNotFound(userId: IdText)
    | ExperimentNotFound(key: string, environment: string)
    | NoVariantsFound(key: string, environment: string)
    | UnknownVariant(variantId: Uuid)
    | InvalidUserId
    | MixedRuleTypes(types: seq<RuleType>)
    | RulesAgainstRequestedStrategy
    | RulesAgainstCurrentStrategy(current: Strategy)
    | InvalidRule(value: string, fault: RuleFault)
    | InvalidWeights(sum: int, weights: seq<int>, reason: WeightFault)
    | HashingFailed
    | MissingActor
    | Unauthorized
    | Forbidden(role: Role, allowed: seq<Role>)
    | NegativeOffset
    | ConnectionFailure
    | BeginUnsupported
    | NotConfigured
    | DatabaseError(violation: SqlError)
    | Operation(cause: Error)  // OperationError and fmt.Errorf("%w"): Unwrap gives the cause

  /** errors.As finds the target somewhere in the unwrap chain. */
  predicate InChain(e: Error, target: Error) {
    e == target || (e.Operation? && InChain(e.cause, target))
  }

  /** The innermost cause. */
  function Root(e: Error): Error {
    if e.Operation? then Root(e.cause) else e
  }
}
