/** The audited flags service of internal/flags/service.go. */
module FlagServices {
  import opened Wrappers
  import opened Schema
  import opened Statements
  import opened Errors
  import opened Auth
  import opened FlagRules
  import opened Protocol
  import opened FlagPlans
  import opened FlagOutcomes
  import opened Evaluation
  import opened Databases
  import opened FlagStores
  import opened AuditStores

  class FlagService {
    const store: FlagStore
    /** Without an audit store a mutation runs outside any transaction. */
    const audit: AuditStore?

    constructor (db: Database, audited: bool)
      ensures store.db == db && !store.inTx && fresh(store)
      ensures if audited then audit != null && audit.db == db && !audit.inTx && fresh(audit) else audit == null
    {
      store := new FlagStore(db, false);
      if audited {
        audit := new AuditStore(db, false);
      } else {
        audit := null;
      }
    }

    ghost predicate Ready()
      reads store.db
    {
      && !store.inTx && store.Ready()
      && (audit != null ==> audit.db == store.db && !audit.inTx)
    }

    /** Actor, transaction, and the two stores bound to it. */
    method PrepareAuditTx(ctx: Context)
      returns (r: Result<IdText, Error>, txStore: FlagStore, txAudit: AuditStore?)
      requires Ready() && audit != null
      modifies store.db
      ensures store.db.Valid() && store.db.calls >= old(store.db.calls)
      ensures ActorIdFromContext(ctx) == None ==> r == Failure(MissingActor) && unchanged(store.db)
      ensures ActorIdFromContext(ctx) != None && store.db.Calm(old(store.db.calls), store.db.calls) ==>
        && r == Success(ActorIdFromContext(ctx).value)
        && store.db.session == Active(store.db.committed)
        && store.db.committed == old(store.db.committed) && store.db.minted == old(store.db.minted)
      ensures ActorIdFromContext(ctx) != None && !store.db.Calm(old(store.db.calls), store.db.calls) ==>
        r.Failure? && store.db.Broke(Some(r.error))
      ensures r.Success? ==>
        && txStore.db == store.db && txStore.inTx
        && txAudit != null && txAudit.db == store.db && txAudit.inTx
    {
      txStore := store;
      r, txAudit := PrepareWriteTx(ctx, audit);
      if r.Success? {
        txStore := new FlagStore(store.db, true);
      }
    }

    method CreateFlag(ctx: Context, input: CreateFlagInput) returns (r: Result<Answer, Error>)
      requires Ready()
      modifies store.db
      ensures store.db.Valid() && store.db.calls >= old(store.db.calls)
      ensures audit != null ==>
        match ActorIdFromContext(ctx)
        case None => r == Failure(MissingActor) && unchanged(store.db)
        case Some(actor) => store.db.Concluded(Mutation.CreateFlag(input), actor, r)
      ensures audit == null ==> store.db.Untransacted(Mutation.CreateFlag(input), r)
    {
      hide Decide, RunPlan, AppendAudit, Consistent, IdsOf, Halfway;
      if audit == null {
        var flag, error := CreateFlagWithStore(store, input);
        return if error.Some? then Failure(error.value) else Success(FlagAnswer(flag.id, flag.Row()));
      }
      var prepared, txStore, txAudit := PrepareAuditTx(ctx);
      if prepared.Failure? {
        return Failure(prepared.error);
      }
      var flag, error := CreateFlagWithStore(txStore, input);
      if error.Some? {
        store.db.Rollback();
        return Failure(error.value);
      }
      error := LogAndCommit(txAudit, FeatureFlag, Canonical(flag.id), Action.Create, prepared.value);
      if error.Some? {
        return Failure(error.value);
      }
      return Success(FlagAnswer(flag.id, flag.Row()));
    }

    method CreateFlagWithStore(store: FlagStore, input: CreateFlagInput) returns (flag: Flag?, error: Option<Error>)
      requires store.Ready()
      modifies store.db
      ensures store.db.Valid() && store.db.calls > old(store.db.calls)
      ensures store.db.Calm(old(store.db.calls), store.db.calls) ==>
        store.db.Worked(Mutation.CreateFlag(input), if flag == null then 0 else flag.id, error)
      ensures !store.db.Calm(old(store.db.calls), store.db.calls) ==>
        store.db.Stopped(Mutation.CreateFlag(input), error)
      ensures error == None && !store.inTx ==>
        store.db.calls == old(store.db.calls) + CallsInAll(Mutation.CreateFlag(input))
      ensures error == None ==>
        && flag != null && fresh(flag)
        && flag.id in store.db.Now().flags && store.db.Now().flags[flag.id] == flag.Row()
    {
      hide RunTodo, Replacement, Exec, Consistent, IdsOf, ResolveStrategyForCreate, UniqueBy;
      flag := null;
      error := EnsureUniqueFlag(store, input.key, input.environment);
      if error.Some? {
        return null, error;
      }
      var strategy := ResolveCreateStrategy(input);
      if strategy.Failure? {
        return null, Some(strategy.error);
      }
      var row := FlagRow(input.key, input.description, false, input.environment, strategy.value);
      NeverMisses(InsertFlag(row));
      ghost var t, n := store.db.Now(), store.db.minted;
      flag, error := store.Create(row);
      if error.Some? {
        return null, Some(Operation(error.value));
      }
      CreatedFlagStays(t, row, store.db.uuids(n), input.rules, store.db.uuids, store.db.minted);
      CreateHalfway(t, input, row, store.db.uuids, n);
      error := PersistRulesForNewFlag(store, flag.id, input.rules);
      if error.Some? {
        return null, error;
      }
    }

    method EnsureUniqueFlag(store: FlagStore, key: string, environment: string) returns (error: Option<Error>)
      requires store.Ready()
      modifies store.db
      ensures store.db.Valid() && store.db.calls == old(store.db.calls) + 1
      ensures store.db.Calm(old(store.db.calls), store.db.calls) ==>
        && store.db.Kept()
        && error == if FindFlag(old(store.db.Now()).flags, key, environment).Some?
                    then Some(DuplicateKey(key, environment)) else None
      ensures !store.db.Calm(old(store.db.calls), store.db.calls) ==> store.db.Broke(error)
    {
      var existing;
      existing, error := store.GetByKeyAndEnvironment(key, environment);
      if error.Some? {
        return Some(Operation(error.value));
      }
      if existing != null {
        return Some(DuplicateKey(key, environment));
      }
    }

    method PersistRulesForNewFlag(
      store: FlagStore, flagId: Uuid, rules: seq<Option<RuleInput>>) returns (error: Option<Error>)
      requires store.Ready()
      modifies store.db
      ensures store.db.Valid() && store.db.calls >= old(store.db.calls)
      ensures error == None && !store.inTx ==>
        store.db.calls == old(store.db.calls) + if rules == [] then 0 else CallsToReplace(rules)
      ensures store.db.Calm(old(store.db.calls), store.db.calls) ==>
        match RunTodo(old(store.db.Now()), if |rules| == 0 then [] else Replacement(flagId, rules),
          store.db.uuids, old(store.db.minted))
        case Success(t) => store.db.Became(t) && error == None
        case Failure(e) => store.db.Dropped() && error == Some(e)
      ensures !store.db.Calm(old(store.db.calls), store.db.calls) ==> store.db.Broke(error)
    {
      if |rules| == 0 {
        return None;
      }
      var rows := RuleInputsToRules(flagId, rules);
      SameCountForAnyFlag(flagId, rules);
      error := store.ReplaceRulesByFlagId(flagId, rows);
      if error.Some? {
        return Some(Operation(error.value));
      }
    }

    method UpdateFlag(ctx: Context, input: UpdateFlagInput) returns (r: Result<Answer, Error>)
      requires Ready()
      modifies store.db
      ensures store.db.Valid() && store.db.calls >= old(store.db.calls)
      ensures audit != null ==>
        match ActorIdFromContext(ctx)
        case None => r == Failure(MissingActor) && unchanged(store.db)
        case Some(actor) => store.db.Concluded(Mutation.UpdateFlag(input), actor, r)
      ensures audit == null ==> store.db.Untransacted(Mutation.UpdateFlag(input), r)
    {
      hide Decide, RunPlan, AppendAudit, Consistent, IdsOf, Halfway;
      if audit == null {
        var flag, error := UpdateFlagWithStore(store, input);
        return if error.Some? then Failure(error.value) else Success(FlagAnswer(flag.id, flag.Row()));
      }
      var prepared, txStore, txAudit := PrepareAuditTx(ctx);
      if prepared.Failure? {
        return Failure(prepared.error);
      }
      var flag, error := UpdateFlagWithStore(txStore, input);
      if error.Some? {
        store.db.Rollback();
        return Failure(error.value);
      }
      error := LogAndCommit(txAudit, FeatureFlag, Canonical(flag.id), Action.Update, prepared.value);
      if error.Some? {
        return Failure(error.value);
      }
      return Success(FlagAnswer(flag.id, flag.Row()));
    }

    method UpdateFlagWithStore(store: FlagStore, input: UpdateFlagInput) returns (flag: Flag?, error: Option<Error>)
      requires store.Ready()
      modifies store.db
      ensures store.db.Valid() && store.db.calls > old(store.db.calls)
      ensures store.db.Calm(old(store.db.calls), store.db.calls) ==>
        store.db.Worked(Mutation.UpdateFlag(input), if flag == null then 0 else flag.id, error)
      ensures !store.db.Calm(old(store.db.calls), store.db.calls) ==>
        store.db.Stopped(Mutation.UpdateFlag(input), error)
      ensures error == None && !store.inTx ==>
        store.db.calls == old(store.db.calls) + CallsInAll(Mutation.UpdateFlag(input))
      ensures error == None ==>
        && flag != null && fresh(flag)
        && flag.id in store.db.Now().flags && store.db.Now().flags[flag.id] == flag.Row()
    {
      hide Exec, Consistent, IdsOf, UniqueBy, Work, FindFlag, Halfway;
      MissingFlagWork(store.db.Now(), Mutation.UpdateFlag(input), store.db.uuids, store.db.minted);
      var environment := DEV;
      if input.environment.Some? && input.environment.value != "" {
        environment := input.environment.value;
      }
      flag, error := GetFlagOrErr(store, input.key, environment);
      if error.Some? {
        return null, error;
      }
      flag.enabled := input.enabled;
      error := StoreUpdate(store, flag, input);
      if error.Some? {
        return null, error;
      }
    }

    /** The writes of an update: the rules, then the flag row. */
    method StoreUpdate(store: FlagStore, flag: Flag, input: UpdateFlagInput) returns (error: Option<Error>)
      requires store.Ready()
      requires FindFlag(store.db.Now().flags, input.key, EnvironmentOf(input)) == Some(flag.id)
      requires flag.Row() == store.db.Now().flags[flag.id].(enabled := input.enabled)
      modifies store.db, flag`strategy
      ensures store.db.Valid() && store.db.calls >= old(store.db.calls)
      ensures store.db.Calm(old(store.db.calls), store.db.calls) ==>
        store.db.Worked(Mutation.UpdateFlag(input), flag.id, error)
      ensures !store.db.Calm(old(store.db.calls), store.db.calls) ==>
        store.db.StoppedAfter(Mutation.UpdateFlag(input), CallsToApply(input.rules), error)
      ensures error == None && !store.inTx ==>
        store.db.calls == old(store.db.calls) + CallsToApply(input.rules) + 1
      ensures error == None ==> flag.id in store.db.Now().flags && store.db.Now().flags[flag.id] == flag.Row()
    {
      hide RunTodo, RulesTodo, Exec, Consistent, IdsOf, ResolveStrategyForUpdate, UniqueBy, Work, FindFlag, Halfway;
      ghost var t, n := store.db.Now(), store.db.minted;
      error := ApplyRulesUpdate(store, flag, input.rules);
      UpdateStages(t, input, flag.id, store.db.uuids, n, store.db.uuids(store.db.minted));
      if error.Some? {
        return error;
      }
      error := store.Update(flag);
      if error.Some? {
        return Some(Operation(error.value));
      }
    }

    method GetFlagOrErr(store: FlagStore, key: string, environment: string) returns (flag: Flag?, error: Option<Error>)
      requires store.Ready()
      modifies store.db
      ensures store.db.Valid() && store.db.calls == old(store.db.calls) + 1
      ensures store.db.Calm(old(store.db.calls), store.db.calls) ==>
        && store.db.Kept()
        && match FindFlag(old(store.db.Now()).flags, key, environment)
           case None => error == Some(FlagNotFound(key, environment))
           case Some(f) =>
             && error == None && flag != null && flag.id == f
             && flag.Row() == old(store.db.Now()).flags[f]
      ensures !store.db.Calm(old(store.db.calls), store.db.calls) ==> store.db.Broke(error)
      ensures error == None ==> flag != null && fresh(flag)
    {
      flag, error := store.GetByKeyAndEnvironment(key, environment);
      if error.Some? {
        return null, Some(Operation(error.value));
      }
      if flag == null {
        return null, Some(FlagNotFound(key, environment));
      }
    }

    /** Sets the flag's strategy and replaces its rules, if the update brings any rules at all. */
    method ApplyRulesUpdate(store: FlagStore, flag: Flag, rules: Option<seq<Option<RuleInput>>>)
      returns (error: Option<Error>)
      requires store.Ready()
      modifies store.db, flag`strategy
      ensures store.db.Valid() && store.db.calls >= old(store.db.calls) && store.db.minted >= old(store.db.minted)
      ensures !store.inTx ==> store.db.calls <= old(store.db.calls) + CallsToApply(rules)
      ensures !store.inTx && error == None ==> store.db.calls == old(store.db.calls) + CallsToApply(rules)
      ensures store.db.Calm(old(store.db.calls), store.db.calls) ==>
        match ResolveStrategyForUpdate(old(flag.strategy), rules)
        case Failure(e) => store.db.Dropped() && error == Some(e)
        case Success(strategy) =>
          && flag.strategy == strategy
          && match RunTodo(old(store.db.Now()), RulesTodo(flag.id, rules), store.db.uuids, old(store.db.minted))
             case Success(t) => store.db.Became(t) && error == None
             case Failure(e) => store.db.Dropped() && error == Some(e)
      ensures !store.db.Calm(old(store.db.calls), store.db.calls) ==> store.db.Broke(error)
    {
      hide Exec, Consistent, IdsOf, UniqueBy;
      if rules == None {
        return None;
      }
      var list := rules.value;
      if |list| == 0 {
        assert RulesTodo(flag.id, rules) == [DeleteRules(flag.id)] + InsertsOf([]);
        flag.strategy := NoStrategy;
        error := store.ReplaceRulesByFlagId(flag.id, []);
        if error.Some? {
          return Some(Operation(error.value));
        }
        return None;
      }
      var kind := ValidateRulesSameType(list);
      if kind.Failure? {
        return Some(kind.error);
      }
      if flag.strategy != NoStrategy && flag.strategy != StrategyOf(kind.value) {
        return Some(RulesAgainstCurrentStrategy(flag.strategy));
      }
      flag.strategy := StrategyOf(kind.value);
      var rows := RuleInputsToRules(flag.id, list);
      SameCountForAnyFlag(flag.id, list);
      error := store.ReplaceRulesByFlagId(flag.id, rows);
      if error.Some? {
        return Some(Operation(error.value));
      }
    }

    method DeleteFlag(ctx: Context, key: string, environment: string) returns (r: Result<Answer, Error>)
      requires Ready()
      modifies store.db
      ensures store.db.Valid() && store.db.calls >= old(store.db.calls)
      ensures audit != null ==>
        match ActorIdFromContext(ctx)
        case None => r == Failure(MissingActor) && unchanged(store.db)
        case Some(actor) => store.db.Concluded(Mutation.DeleteFlag(key, environment), actor, r)
      ensures audit == null ==> store.db.Transacted(Mutation.DeleteFlag(key, environment), r)
    {
      hide Decide, RunPlan, AppendAudit, Consistent, IdsOf, Halfway;
      if audit == null {
        var deleted, _, error := DeleteFlagWithStoreAndId(store, key, environment);
        return if error.Some? then Failure(error.value) else Success(Deleted(deleted));
      }
      var prepared, txStore, txAudit := PrepareAuditTx(ctx);
      if prepared.Failure? {
        return Failure(prepared.error);
      }
      var deleted, id, error := DeleteFlagWithStoreAndId(txStore, key, environment);
      if error.Some? {
        store.db.Rollback();
        return Failure(error.value);
      }
      error := LogAndCommit(txAudit, FeatureFlag, Canonical(id), Action.Delete, prepared.value);
      if error.Some? {
        return Failure(error.value);
      }
      return Success(Deleted(deleted));
    }

    method DeleteFlagWithStoreAndId(
      store: FlagStore, key: string, environment: string) returns (deleted: bool, id: Uuid, error: Option<Error>)
      requires store.Ready()
      modifies store.db
      ensures store.db.Valid() && store.db.calls > old(store.db.calls)
      ensures store.db.Calm(old(store.db.calls), store.db.calls) ==>
        store.db.Worked(Mutation.DeleteFlag(key, environment), id, error)
      ensures !store.db.Calm(old(store.db.calls), store.db.calls) ==> store.db.Broke(error)
      ensures error == None ==> deleted
    {
      hide Exec, Consistent, IdsOf, UniqueBy;
      var flag;
      flag, error := GetFlagOrErr(store, key, environment);
      if error.Some? {
        return false, 0, error;
      }
      RunThenLast(store.db.Now(), [], Statement.DeleteFlag(flag.id), store.db.uuids, store.db.minted,
        store.db.uuids(store.db.minted));
      assert [] + [Statement.DeleteFlag(flag.id)] == [Statement.DeleteFlag(flag.id)];
      error := store.Delete(flag.id);
      if error.Some? {
        return false, 0, Some(Operation(error.value));
      }
      return true, flag.id, None;
    }

    /** Two reads outside any transaction. */
    method EvaluateFlagInEnvironment(lib: Library, key: string, environment: string, ctx: EvaluationContext)
      returns (r: Result<bool, Error>)
      requires Ready()
      modifies store.db
      ensures store.db.Valid() && store.db.committed == old(store.db.committed) && store.db.session.Idle?
      ensures store.db.calls >= old(store.db.calls)
      ensures if store.db.Calm(old(store.db.calls), store.db.calls)
        then r == Evaluate(lib, old(store.db.committed), key, environment, ctx)
        else r.Failure? && Root(r.error) == ConnectionFailure
    {
      hide Consistent, IdsOf, UniqueBy, RulesOf, EvaluateRulesByStrategy;
      if ctx.userId == "" {
        return Failure(InvalidUserId);
      }
      var flag, error := store.GetByKeyAndEnvironment(key, environment);
      if error.Some? {
        return Failure(Operation(error.value));
      }
      if flag == null || !flag.enabled {
        return Success(false);
      }
      var rules;
      rules, error := store.GetRulesByFlagId(flag.id);
      if error.Some? {
        return Failure(Operation(error.value));
      }
      if |rules| == 0 {
        return Success(true);
      }
      return EvaluateRulesByStrategy(lib, flag.strategy, ctx, rules);
    }
  }

  /**
   Succeeds exactly when all rules share a type and the requested strategy is none or theirs;
   every row made of the rules then asks for the result.
   */
  method ResolveCreateStrategy(input: CreateFlagInput) returns (r: Result<Strategy, Error>)
    ensures r == ResolveStrategyForCreate(input)
    ensures var requested, rules := StrategyFromInput(input.strategy), input.rules;
      && (r.Success? <==>
            && (forall i, j :: 0 <= i < j < |rules| ==> RuleTypeOf(rules[i]) == RuleTypeOf(rules[j]))
            && (rules == [] || requested == NoStrategy || requested == StrategyOf(RuleTypeOf(rules[0]))))
      && (r.Success? ==>
            && (requested != NoStrategy ==> r.value == requested)
            && (rules == [] ==> r.value == requested)
            && forall f, i :: 0 <= i < |RuleRows(f, rules)| ==> StrategyOf(RuleRows(f, rules)[i].kind) == r.value)
    ensures match r
      case Success(strategy) =>
        !Mixed(input.rules) && !Contradicts(input.strategy, input.rules) && StrategyCreated(input, strategy)
      case Failure(e) =>
        if Mixed(input.rules) then ListsKinds(e, input.rules)
        else Contradicts(input.strategy, input.rules) && e == RulesAgainstRequestedStrategy
  {
    StrategyDecided(input);
    hide Mixed, Contradicts, StrategyCreated, ListsKinds;
    if |input.rules| > 0 && SameType(input.rules).Success? {
      forall f: Uuid
        ensures forall i :: 0 <= i < |RuleRows(f, input.rules)| ==>
          RuleRows(f, input.rules)[i].kind == SameType(input.rules).value
      {
        RowsKeepType(f, input.rules, SameType(input.rules).value);
      }
    }
    var strategy := StrategyFromInput(input.strategy);
    if |input.rules| == 0 {
      return Success(strategy);
    }
    var kind := ValidateRulesSameType(input.rules);
    if kind.Failure? {
      return Failure(kind.error);
    }
    if strategy != NoStrategy && strategy != StrategyOf(kind.value) {
      return Failure(RulesAgainstRequestedStrategy);
    }
    return Success(StrategyOf(kind.value));
  }
}
